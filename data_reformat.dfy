/**
 * Reformatting a dataset for the statistics tool: the dictionary from
 * product id to record becomes the list of its records, and each record's
 * `date` loses its sub-second part. The records are mutable objects shared
 * with the caller, and the truncation changes them in place.
 */
module DataReformat {
  import opened JsonData

  /** A record object (a Python dict) that can be updated in place and shared. */
  class Product {
    var fields: Record

    constructor (fields: Record)
      ensures this.fields == fields
    {
      this.fields := fields;
    }
  }

  /** A dataset in memory: product id to record object, in dictionary order. */
  type Dataset = Dict<Product>

  /** The records of `data` in dictionary order. */
  function InOrder(data: Dataset): (products: seq<Product>)
    requires Valid(data)
    ensures |products| == |data.keys|
    ensures forall i :: 0 <= i < |products| ==> products[i] == data.vals[data.keys[i]]
  {
    seq(|data.keys|, i requires 0 <= i < |data.keys| => data.vals[data.keys[i]])
  }

  /** The current contents of the record objects, in the order given. */
  function Snapshot(products: seq<Product>): (s: seq<Record>)
    reads products
    ensures |s| == |products|
    ensures forall i :: 0 <= i < |s| ==> s[i] == products[i].fields
  {
    if products == [] then []
    else Snapshot(products[..|products| - 1]) + [products[|products| - 1].fields]
  }

  /**
   * The loop of `to_R_json_parser` that drops the ids: it visits the keys in
   * dictionary order and appends the record stored under each.
   */
  method Flatten(data: Dataset) returns (parsed: seq<Product>)
    requires Valid(data)
    ensures |parsed| == |data.keys|
    ensures forall i :: 0 <= i < |parsed| ==> parsed[i] == data.vals[data.keys[i]]
    ensures forall p :: p in parsed <==> p in data.vals.Values
  {
    parsed := [];
    for i := 0 to |data.keys|
      invariant |parsed| == i
      invariant forall j :: 0 <= j < i ==> parsed[j] == data.vals[data.keys[j]]
    {
      var product := data.keys[i];
      parsed := parsed + [data.vals[product]];
    }
    forall p | p in data.vals.Values
      ensures p in parsed
    {
      var id :| id in data.vals && data.vals[id] == p;
      var j :| 0 <= j < |data.keys| && data.keys[j] == id;
      assert parsed[j] == p;
    }
  }

  /**
   * `s.split(".")[0]`: the longest prefix of `s` that holds no '.'; the
   * character after it, if any, is the first '.' of `s`.
   */
  function BeforeFirstDot(s: string): (r: string)
    ensures r <= s
    ensures '.' !in r
    ensures |r| < |s| ==> s[|r|] == '.'
  {
    if s == [] || s[0] == '.' then []
    else [s[0]] + BeforeFirstDot(s[1..])
  }

  /** The three properties of `BeforeFirstDot` determine its result. */
  lemma BeforeFirstDotUnique(s: string, r: string)
    requires r <= s && '.' !in r && (|r| < |s| ==> s[|r|] == '.')
    ensures r == BeforeFirstDot(s)
  {
  }

  /** A string without '.' is kept whole; truncating twice is truncating once. */
  lemma BeforeFirstDotFacts(s: string)
    ensures '.' !in s ==> BeforeFirstDot(s) == s
    ensures BeforeFirstDot(BeforeFirstDot(s)) == BeforeFirstDot(s)
  {
    BeforeFirstDotUnique(BeforeFirstDot(s), BeforeFirstDot(s));
  }

  predicate HasStringDate(rec: Record) {
    "date" in rec.vals && rec.vals["date"].Str?
  }

  /**
   * The body of the `convert_time_to_posix` loop on one record:
   * `product['date'] = product['date'].split(".")[0]`. Reading a missing
   * `date` raises KeyError; a `date` that is not a string has no `split`.
   */
  function TruncateDate(rec: Record): (r: Result<Record>)
    requires Valid(rec)
    ensures "date" !in rec.vals ==> r == Err(KeyError("date"))
    ensures "date" in rec.vals && !rec.vals["date"].Str? ==> r == Err(AttributeError("split"))
    ensures HasStringDate(rec) ==> r.Ok?
    ensures r.Ok? ==>
      && Valid(r.value)
      && r.value.keys == rec.keys
      && r.value.vals.Keys == rec.vals.Keys
      && r.value.vals["date"] == Str(BeforeFirstDot(rec.vals["date"].s))
      && '.' !in r.value.vals["date"].s
      && forall k :: k in rec.vals && k != "date" ==> r.value.vals[k] == rec.vals[k]
  {
    if "date" !in rec.vals then Err(KeyError("date"))
    else match rec.vals["date"]
      case Str(d) => Ok(Set(rec, "date", Str(BeforeFirstDot(d))))
      case _ => Err(AttributeError("split"))
  }

  /** Truncating a truncated record changes nothing. */
  lemma TruncateDateIdempotent(rec: Record)
    requires Valid(rec) && TruncateDate(rec).Ok?
    ensures TruncateDate(TruncateDate(rec).value) == TruncateDate(rec)
  {
    var once := TruncateDate(rec).value;
    BeforeFirstDotFacts(rec.vals["date"].s);
    var twice := TruncateDate(once).value;
    assert twice.vals == once.vals;
  }

  /**
   * The position of the first record the truncation fails on, or the number
   * of records when it fails on none.
   */
  function FirstFailure(recs: seq<Record>): (k: nat)
    requires forall i :: 0 <= i < |recs| ==> Valid(recs[i])
    ensures k <= |recs|
    ensures forall j :: 0 <= j < k ==> TruncateDate(recs[j]).Ok?
    ensures k < |recs| ==> TruncateDate(recs[k]).Err?
  {
    if recs == [] || TruncateDate(recs[0]).Err? then 0
    else 1 + FirstFailure(recs[1..])
  }

  /**
   * After `i` steps of the truncation loop over `data`: every record object
   * among the first `i` holds its truncated `before` contents, every other
   * one its `before` contents; `now` lists the current contents.
   */
  ghost predicate Progress(data: seq<Product>, now: seq<Record>, before: seq<Record>, i: nat)
  {
    && |now| == |data| == |before| && i <= |data|
    && (forall j :: 0 <= j < |before| ==> Valid(before[j]))
    && (forall j, l :: 0 <= j < |data| && 0 <= l < |data| && data[j] == data[l] ==> before[j] == before[l])
    && (forall j :: 0 <= j < i ==> TruncateDate(before[j]).Ok?)
    && forall j :: 0 <= j < |data| ==>
         if data[j] in data[..i] then TruncateDate(before[j]) == Ok(now[j])
         else now[j] == before[j]
  }

  /**
   * The record the loop visits next truncates as its `before` contents do,
   * whether or not the same object was visited earlier; so if it fails, it
   * is the first failure.
   */
  lemma ProgressNext(data: seq<Product>, now: seq<Record>, before: seq<Record>, i: nat)
    requires Progress(data, now, before, i) && i < |data|
    ensures Valid(now[i]) && TruncateDate(now[i]) == TruncateDate(before[i])
    ensures TruncateDate(now[i]).Err? ==> FirstFailure(before) == i
  {
    if data[i] in data[..i] {
      TruncateDateIdempotent(before[i]);
    }
  }

  /** Storing the truncated record in the visited object extends the progress by one. */
  lemma ProgressStep(data: seq<Product>, now: seq<Record>, before: seq<Record>, i: nat, next: seq<Record>)
    requires Progress(data, now, before, i) && i < |data|
    requires TruncateDate(before[i]).Ok? && |next| == |data|
    requires forall j :: 0 <= j < |data| ==>
      next[j] == if data[j] == data[i] then TruncateDate(before[i]).value else now[j]
    ensures Progress(data, next, before, i + 1)
  {
    assert data[..i + 1] == data[..i] + [data[i]];
  }

  /** Once every record object has been visited, each holds its truncated contents. */
  lemma ProgressDone(data: seq<Product>, now: seq<Record>, before: seq<Record>)
    requires Progress(data, now, before, |data|)
    ensures forall i :: 0 <= i < |data| ==> TruncateDate(before[i]) == Ok(now[i])
  {
    assert data[..|data|] == data;
  }

  /**
   * `convert_time_to_posix`: truncates every record's `date` in place, in
   * list order, and stops at the first record it fails on, raising that
   * record's exception; the records before it stay truncated. A record
   * object listed twice is truncated twice, which leaves it as truncated once.
   */
  method ConvertTimeToPosix(data: seq<Product>) returns (outcome: Result<()>)
    requires forall i :: 0 <= i < |data| ==> Valid(data[i].fields)
    modifies data
    ensures var before := old(Snapshot(data)); var k := FirstFailure(before);
      && (outcome.Ok? <==> k == |data|)
      && (outcome.Err? ==> TruncateDate(before[k]) == Err(outcome.error))
      && Progress(data, Snapshot(data), before, k)
  {
    ghost var before := Snapshot(data);
    var i := 0;
    while i < |data|
      invariant 0 <= i <= |data|
      invariant Progress(data, Snapshot(data), before, i)
    {
      var product := data[i];
      ProgressNext(data, Snapshot(data), before, i);
      var truncated := TruncateDate(product.fields);
      if truncated.Err? {
        return Err(truncated.error);
      }
      ghost var now := Snapshot(data);
      product.fields := truncated.value;
      ProgressStep(data, now, before, i, Snapshot(data));
      i := i + 1;
    }
    return Ok(());
  }

  /**
   * `to_R_json_parser` on a dataset already in memory: the records in
   * dictionary order, ids dropped, with `date` truncated when `convertTime`
   * holds (which changes the caller's record objects too). The result is
   * the list that is then serialised to JSON.
   */
  method ToRJsonParser(data: Dataset, convertTime: bool := true) returns (r: Result<seq<Record>>)
    requires Valid(data)
    requires forall id :: id in data.vals ==> Valid(data.vals[id].fields)
    modifies data.vals.Values
    ensures !convertTime ==> r == Ok(old(Snapshot(InOrder(data)))) && unchanged(data.vals.Values)
    ensures convertTime ==>
      var products := InOrder(data); var before := old(Snapshot(products)); var k := FirstFailure(before);
      && (r.Ok? <==> k == |products|)
      && (r.Ok? ==> |r.value| == |before| &&
                     forall i :: 0 <= i < |before| ==> TruncateDate(before[i]) == Ok(r.value[i]))
      && (r.Err? ==> TruncateDate(before[k]) == Err(r.error))
      && Progress(products, Snapshot(products), before, k)
  {
    ghost var products := InOrder(data);
    ghost var before := Snapshot(products);
    var parsedData := Flatten(data);
    assert parsedData == products;
    if convertTime {
      assert Snapshot(parsedData) == before;
      var outcome := ConvertTimeToPosix(parsedData);
      ghost var k := FirstFailure(before);
      assert outcome.Ok? <==> k == |products|;
      if outcome.Err? {
        assert TruncateDate(before[k]) == Err(outcome.error);
        return Err(outcome.error);
      }
      ProgressDone(parsedData, Snapshot(parsedData), before);
    }
    r := Ok(Snapshot(parsedData));
  }
}
