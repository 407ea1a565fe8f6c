/**
 * The console status printer: a message is optionally preceded by a
 * bracketed timestamp, and is either printed on a line of its own or written
 * over the current line ("flushed"). Once a message has been flushed, every
 * later line message starts with a newline so that it does not overwrite the
 * refreshed line.
 */
module TerminalPrinter {

  /**
   * `format_time`: `clock` stands for the wall-clock time already rendered
   * as "%d:%m:%Y-%H:%M:%S"; reading the clock is outside the model.
   */
  function FormatTime(clock: string): (r: string)
    ensures |r| == |clock| + 2 && r[0] == '[' && r[|r| - 1] == ']' && r[1..|r| - 1] == clock
  {
    "[" + clock + "]"
  }

  /** The text of a message after the optional timestamp and its space. */
  function Message(text: string, showTime: bool, clock: string): (m: string)
    ensures showTime ==> m == FormatTime(clock) + " " + text
    ensures !showTime ==> m == text
  {
    (if showTime then FormatTime(clock) + " " else "") + text
  }

  /**
   * What one call of `print` writes to standard output, given whether an
   * earlier call flushed.
   */
  function Render(text: string, flush: bool, showTime: bool, wasRefreshed: bool, clock: string): (out: string)
    // a flushed message returns the cursor first and ends without a newline
    ensures flush ==> out == "\r" + Message(text, showTime, clock)
    // a line message gets its own line, opened with a newline after a refresh
    ensures !flush && wasRefreshed ==> out == "\n" + Message(text, showTime, clock) + "\n"
    ensures !flush && !wasRefreshed ==> out == Message(text, showTime, clock) + "\n"
  {
    if !flush then
      if !wasRefreshed then Message(text, showTime, clock) + "\n"
      else "\n" + Message(text, showTime, clock) + "\n"
    else "\r" + Message(text, showTime, clock)
  }

  /** The arguments of one call of `print`, with the clock reading it saw. */
  datatype Call = Call(text: string, flush: bool, showTime: bool, clock: string)

  predicate HasFlush(calls: seq<Call>) {
    exists i :: 0 <= i < |calls| && calls[i].flush
  }

  /** What a fresh printer writes for `calls`, one string per call. */
  function Transcript(calls: seq<Call>): (outs: seq<string>)
    ensures |outs| == |calls|
  {
    if calls == [] then []
    else
      var c := calls[|calls| - 1];
      Transcript(calls[..|calls| - 1]) + [Render(c.text, c.flush, c.showTime, HasFlush(calls[..|calls| - 1]), c.clock)]
  }

  /** Once some call has flushed, the printer stays refreshed for good. */
  lemma HasFlushPersists(calls: seq<Call>, more: seq<Call>)
    requires HasFlush(calls)
    ensures HasFlush(calls + more)
  {
    var i :| 0 <= i < |calls| && calls[i].flush;
    assert (calls + more)[i] == calls[i];
  }

  /** Adding one call: the printer is refreshed iff it was, or this call flushes. */
  lemma HasFlushSnoc(calls: seq<Call>, c: Call)
    ensures HasFlush(calls + [c]) == (HasFlush(calls) || c.flush)
  {
    var all := calls + [c];
    if c.flush {
      assert all[|calls|] == c;
    }
    if HasFlush(all) && !c.flush {
      var i :| 0 <= i < |all| && all[i].flush;
      assert i < |calls| && calls[i] == all[i];
    }
    if HasFlush(calls) {
      HasFlushPersists(calls, [c]);
    }
  }

  /** One more call appends its rendering, made with the flag of the calls before it. */
  lemma TranscriptSnoc(calls: seq<Call>, c: Call)
    ensures Transcript(calls + [c])
         == Transcript(calls) + [Render(c.text, c.flush, c.showTime, HasFlush(calls), c.clock)]
  {
    assert (calls + [c])[..|calls|] == calls;
  }

  /**
   * The i-th message of a session is rendered with the refresh flag set iff
   * one of the calls before it flushed: a line message starts with "\n"
   * exactly after some earlier flush.
   */
  lemma {:induction false} TranscriptAt(calls: seq<Call>, i: nat)
    requires i < |calls|
    ensures Transcript(calls)[i]
         == Render(calls[i].text, calls[i].flush, calls[i].showTime, HasFlush(calls[..i]), calls[i].clock)
  {
    var n := |calls| - 1;
    if i < n {
      var p := calls[..n];
      TranscriptAt(p, i);
      assert p[i] == calls[i];
      assert p[..i] == calls[..i];
    }
  }

  class TerminalPrint {
    var wasRefreshed: bool
    /** The calls made so far and what each wrote. */
    ghost var history: seq<Call>
    ghost var output: seq<string>

    ghost predicate Valid()
      reads this
    {
      wasRefreshed == HasFlush(history) && output == Transcript(history)
    }

    constructor ()
      ensures Valid() && history == [] && !wasRefreshed
    {
      wasRefreshed := false;
      history := [];
      output := [];
    }

    /** `print(text, flush, show_time)`; `out` is the text written to standard output. */
    method Print(text: string, clock: string, flush: bool := false, showTime: bool := true) returns (out: string)
      requires Valid()
      modifies this
      ensures Valid()
      ensures history == old(history) + [Call(text, flush, showTime, clock)]
      ensures output == old(output) + [out]
      ensures out == Render(text, flush, showTime, old(wasRefreshed), clock)
      ensures wasRefreshed == (old(wasRefreshed) || flush)
    {
      ghost var refreshed := wasRefreshed;
      ghost var c := Call(text, flush, showTime, clock);
      var printString := "";
      if showTime {
        printString := FormatTime(clock) + " ";
      }
      ghost var m := printString + text;
      assert m == Message(text, showTime, clock);
      if !flush {
        if !wasRefreshed {
          out := printString + text + "\n";
          assert out == m + "\n";
        } else {
          out := "\n" + printString + text + "\n";
          assert out == "\n" + m + "\n";
        }
      } else {
        out := "\r" + printString + text;
        assert out == "\r" + m;
        wasRefreshed := true;
      }
      assert out == Render(text, flush, showTime, refreshed, clock);
      HasFlushSnoc(history, c);
      TranscriptSnoc(history, c);
      history := history + [c];
      output := output + [out];
    }
  }
}
