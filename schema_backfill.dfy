/**
 * Giving every file of a folder the same variables: the union of the
 * variables of each file's first record is collected in listing order, and
 * each file is rewritten with the variables its first record lacks set to
 * null in every record.
 */
module SchemaBackfill {
  import opened JsonData

  /** A file's parsed contents: record id to record, in file order. */
  type Document = Dict<Record>

  /** A folder: its files as the directory listing returns them, by name. */
  type Folder = seq<(string, Document)>

  /** The file name the folder operations skip. */
  const DsStore := ".DS_Store"

  ghost predicate WellFormed(doc: Document) {
    Valid(doc) && forall id :: id in doc.vals ==> Valid(doc.vals[id])
  }

  ghost predicate FolderWellFormed(folder: Folder) {
    forall i :: 0 <= i < |folder| ==> WellFormed(folder[i].1)
  }

  /** `data[next(iter(data))]`: the record stored under the file's first id. */
  function FirstRecord(doc: Document): (r: Record)
    requires WellFormed(doc) && doc.keys != []
    ensures Valid(r)
  {
    doc.vals[doc.keys[0]]
  }

  /**
   * Every file that is not skipped has a record; otherwise `next(iter(data))`
   * raises on the first one that has none.
   */
  predicate NoEmptyFile(folder: Folder) {
    forall i :: 0 <= i < |folder| && folder[i].0 != DsStore ==> folder[i].1.keys != []
  }

  /**
   * The variables of the first record of every file that is not skipped,
   * one file after the other in listing order (a file without records
   * contributes none).
   */
  function FirstKeys(folder: Folder): seq<string>
    requires FolderWellFormed(folder)
  {
    if folder == [] then []
    else
      var (name, doc) := folder[|folder| - 1];
      FirstKeys(folder[..|folder| - 1])
        + (if name == DsStore || doc.keys == [] then [] else FirstRecord(doc).keys)
  }

  /** Every variable of a non-skipped file's first record is among `FirstKeys`. */
  lemma {:induction false} FirstKeysCover(folder: Folder, i: nat)
    requires FolderWellFormed(folder) && i < |folder|
    requires folder[i].0 != DsStore && folder[i].1.keys != []
    ensures forall x :: x in FirstRecord(folder[i].1).keys ==> x in FirstKeys(folder)
  {
    var n := |folder| - 1;
    if i < n {
      var p := folder[..n];
      assert p[i] == folder[i];
      FirstKeysCover(p, i);
    }
  }

  /** Every element of `FirstKeys` is a variable of some non-skipped file's first record. */
  lemma {:induction false} FirstKeysFrom(folder: Folder, x: string)
    requires FolderWellFormed(folder) && x in FirstKeys(folder)
    ensures exists i :: 0 <= i < |folder| && folder[i].0 != DsStore && folder[i].1.keys != []
                        && x in FirstRecord(folder[i].1).keys
  {
    var n := |folder| - 1;
    var p := folder[..n];
    if x in FirstKeys(p) {
      FirstKeysFrom(p, x);
      var i :| 0 <= i < |p| && p[i].0 != DsStore && p[i].1.keys != [] && x in FirstRecord(p[i].1).keys;
      assert folder[i] == p[i];
    } else {
      assert folder[n].0 != DsStore && folder[n].1.keys != [] && x in FirstRecord(folder[n].1).keys;
    }
  }

  /**
   * The elements of `s` in order, each kept at its first occurrence: what
   * `if var not in variables: variables.append(var)` builds from `[]`.
   */
  function FirstOccurrences(s: seq<string>): (r: seq<string>)
    ensures NoDup(r)
    ensures forall x :: x in r <==> x in s
  {
    if s == [] then []
    else
      var r0 := FirstOccurrences(s[..|s| - 1]);
      if s[|s| - 1] in s[..|s| - 1] then r0 else r0 + [s[|s| - 1]]
  }

  /** The position of the first occurrence of `x` in `s`. */
  function FirstIndex(s: seq<string>, x: string): (i: nat)
    requires x in s
    ensures i < |s| && s[i] == x && x !in s[..i]
  {
    if s[0] == x then 0 else 1 + FirstIndex(s[1..], x)
  }

  /** A first occurrence inside a prefix is a first occurrence in the whole. */
  lemma FirstIndexPrefix(s: seq<string>, t: seq<string>, x: string)
    requires x in s
    ensures FirstIndex(s + t, x) == FirstIndex(s, x)
  {
    var i, j := FirstIndex(s + t, x), FirstIndex(s, x);
    assert (s + t)[j] == x;
  }

  /**
   * First occurrence wins: the union lists its variables in the order in
   * which they first occur in `s`.
   */
  lemma {:induction false} FirstOccurrencesOrder(s: seq<string>, i: nat, j: nat)
    requires i < j < |FirstOccurrences(s)|
    ensures FirstIndex(s, FirstOccurrences(s)[i]) < FirstIndex(s, FirstOccurrences(s)[j])
  {
    var n := |s| - 1;
    var p := s[..n];
    var r0 := FirstOccurrences(p);
    var r := FirstOccurrences(s);
    assert s == p + [s[n]];
    assert r[i] in p by {
      if i < |r0| { assert r[i] == r0[i]; }
    }
    FirstIndexPrefix(p, [s[n]], r[i]);
    if j < |r0| {
      assert r[i] == r0[i] && r[j] == r0[j];
      FirstOccurrencesOrder(p, i, j);
      FirstIndexPrefix(p, [s[n]], r[j]);
    } else {
      assert r[j] == s[n] && s[n] !in p;
      assert FirstIndex(s, r[j]) == n;
    }
  }

  /**
   * `get_data_vars` on a folder: the union of the first-record variables of
   * its files, or StopIteration when a file has no records.
   */
  function DataVars(folder: Folder): (r: Result<seq<string>>)
    requires FolderWellFormed(folder)
    ensures r.Err? <==> !NoEmptyFile(folder)
    ensures r.Err? ==> r.error == StopIteration
    ensures r.Ok? ==> NoDup(r.value) && forall x :: x in r.value <==> x in FirstKeys(folder)
  {
    if !NoEmptyFile(folder) then Err(StopIteration)
    else Ok(FirstOccurrences(FirstKeys(folder)))
  }

  /** Appending one element to `s` appends it to the union iff it is new. */
  lemma FirstOccurrencesSnoc(s: seq<string>, x: string)
    ensures FirstOccurrences(s + [x])
         == FirstOccurrences(s) + (if x in FirstOccurrences(s) then [] else [x])
  {
    assert (s + [x])[..|s|] == s;
  }

  /** The listing grows by one file. */
  lemma FolderSnoc(folder: Folder, i: nat)
    requires FolderWellFormed(folder) && i < |folder|
    ensures var (name, doc) := folder[i];
      && FirstKeys(folder[..i + 1])
         == FirstKeys(folder[..i]) + (if name == DsStore || doc.keys == [] then [] else FirstRecord(doc).keys)
      && (NoEmptyFile(folder[..i + 1]) <==> NoEmptyFile(folder[..i]) && (name == DsStore || doc.keys != []))
  {
    var p := folder[..i + 1];
    assert p[..i] == folder[..i] && p[i] == folder[i];
  }

  /** `get_data_vars`: the loop over the listing and over each first record's keys. */
  method GetDataVars(folder: Folder) returns (r: Result<seq<string>>)
    requires FolderWellFormed(folder)
    ensures r == DataVars(folder)
    ensures r.Err? <==> !NoEmptyFile(folder)
    ensures r.Ok? ==> NoDup(r.value)
    ensures r.Ok? ==> forall x :: x in r.value <==> x in FirstKeys(folder)
  {
    var variables: seq<string> := [];
    for i := 0 to |folder|
      invariant NoEmptyFile(folder[..i])
      invariant variables == FirstOccurrences(FirstKeys(folder[..i]))
    {
      FolderSnoc(folder, i);
      var (filename, data) := folder[i];
      ghost var seen := FirstKeys(folder[..i]);
      if filename != DsStore {
        if data.keys == [] {
          assert folder[i].0 != DsStore && folder[i].1.keys == [];
          return Err(StopIteration);
        }
        var first := data.vals[data.keys[0]];
        var keys := first.keys;
        assert seen + keys[..0] == seen;
        for j := 0 to |keys|
          invariant variables == FirstOccurrences(seen + keys[..j])
        {
          var v := keys[j];
          AppendTakeSnoc(seen, keys, j);
          FirstOccurrencesSnoc(seen + keys[..j], v);
          if v !in variables {
            variables := variables + [v];
          }
        }
        assert keys[..|keys|] == keys;
      } else {
        assert seen + [] == seen;
      }
    }
    assert folder[..|folder|] == folder;
    return Ok(variables);
  }

  /**
   * Appending one more element of `b` to `a` extends the result by it.
   * Stated once for any element type, this keeps the union loop's proof
   * away from the contents of the records.
   */
  lemma AppendTakeSnoc<T>(a: seq<T>, b: seq<T>, j: nat)
    requires j < |b|
    ensures a + b[..j + 1] == (a + b[..j]) + [b[j]]
  {
  }

  /** Taking one more element of `s` appends it; generic, as above. */
  lemma TakeSnoc<T>(s: seq<T>, i: nat)
    requires i < |s|
    ensures s[..i + 1] == s[..i] + [s[i]]
  {
  }

  /**
   * `[x for x in variables if x not in first]`: the union's variables that
   * the first record lacks, in the union's order.
   */
  function MissingVars(variables: seq<string>, first: Record): (m: seq<string>)
    ensures forall x :: x in m <==> x in variables && x !in first.vals
    ensures |m| <= |variables|
    ensures NoDup(variables) ==> NoDup(m)
  {
    if variables == [] then []
    else
      var m0 := MissingVars(variables[..|variables| - 1], first);
      var x := variables[|variables| - 1];
      if x !in first.vals then m0 + [x] else m0
  }

  /**
   * The missing variables keep the union's order: for a union without
   * duplicates, an earlier missing variable occurs earlier in the union.
   */
  lemma {:induction false} MissingVarsOrder(variables: seq<string>, first: Record, i: nat, j: nat)
    requires NoDup(variables) && i < j < |MissingVars(variables, first)|
    ensures var m := MissingVars(variables, first);
      FirstIndex(variables, m[i]) < FirstIndex(variables, m[j])
  {
    var n := |variables| - 1;
    var p := variables[..n];
    var x := variables[n];
    var m0 := MissingVars(p, first);
    var m := MissingVars(variables, first);
    assert variables == p + [x];
    assert NoDup(p);
    assert m[i] in p by {
      if i < |m0| { assert m[i] == m0[i]; }
    }
    FirstIndexPrefix(p, [x], m[i]);
    if j < |m0| {
      assert m[i] == m0[i] && m[j] == m0[j];
      MissingVarsOrder(p, first, i, j);
      FirstIndexPrefix(p, [x], m[j]);
    } else {
      assert m[j] == x && x !in p;
      assert FirstIndex(variables, m[j]) == n;
    }
  }

  /**
   * One record of `add_NAs`: a copy of `rec` in which every variable of
   * `missing` is then set to null. A field of `rec` keeps its value and its
   * place unless it is in `missing`, where it becomes null; the variables
   * `rec` lacks are appended.
   */
  function Backfill(rec: Record, missing: seq<string>): (r: Record)
    requires Valid(rec)
    ensures Valid(r)
    ensures r.vals.Keys == rec.vals.Keys + set x | x in missing
    ensures forall k :: k in r.vals ==> r.vals[k] == if k in missing then Null else rec.vals[k]
    ensures rec.keys <= r.keys
  {
    if missing == [] then rec
    else Set(Backfill(rec, missing[..|missing| - 1]), missing[|missing| - 1], Null)
  }

  /**
   * The order of a backfilled record's fields: its own fields in their
   * order, then the missing variables it lacked, in the order they are set.
   */
  lemma {:induction false} BackfillKeyOrder(rec: Record, missing: seq<string>)
    requires Valid(rec) && NoDup(missing)
    ensures Backfill(rec, missing).keys == rec.keys + MissingVars(missing, rec)
  {
    if missing != [] {
      var n := |missing| - 1;
      var p := missing[..n];
      var x := missing[n];
      assert NoDup(p);
      BackfillKeyOrder(rec, p);
      var r0 := Backfill(rec, p);
      assert Backfill(rec, missing) == Set(r0, x, Null);
      assert x in r0.vals <==> x in rec.vals by {
        assert x !in p;
      }
      if x in rec.vals {
        assert MissingVars(missing, rec) == MissingVars(p, rec);
      } else {
        assert MissingVars(missing, rec) == MissingVars(p, rec) + [x];
        assert rec.keys + (MissingVars(p, rec) + [x]) == (rec.keys + MissingVars(p, rec)) + [x];
      }
    }
  }

  /**
   * The contents `add_NAs` writes back to one file, given the union of the
   * folder's variables.
   */
  function BackfillDocument(doc: Document, variables: seq<string>): (r: Document)
    requires WellFormed(doc) && doc.keys != []
    ensures WellFormed(r)
    ensures r.keys == doc.keys
  {
    var missing := MissingVars(variables, FirstRecord(doc));
    Dict(doc.keys, map id | id in doc.vals :: Backfill(doc.vals[id], missing))
  }

  /** The record `add_NAs` writes under `id`. */
  lemma BackfillDocumentAt(doc: Document, variables: seq<string>, id: string)
    requires WellFormed(doc) && doc.keys != [] && id in doc.vals
    ensures id in BackfillDocument(doc, variables).vals
    ensures BackfillDocument(doc, variables).vals[id]
         == Backfill(doc.vals[id], MissingVars(variables, FirstRecord(doc)))
  {
  }

  /**
   * The field order of a rewritten record: its own fields in their order,
   * then those of the missing variables it lacked, in the union's order.
   */
  lemma BackfilledFieldOrder(doc: Document, variables: seq<string>, id: string)
    requires WellFormed(doc) && doc.keys != [] && id in doc.vals && NoDup(variables)
    ensures BackfillDocument(doc, variables).vals[id].keys
         == doc.vals[id].keys + MissingVars(MissingVars(variables, FirstRecord(doc)), doc.vals[id])
  {
    BackfillDocumentAt(doc, variables, id);
    BackfillKeyOrder(doc.vals[id], MissingVars(variables, FirstRecord(doc)));
  }

  /**
   * The body of `for el in data` in `add_NAs`: the record's fields are
   * copied into a new dict one by one, then each missing variable is set
   * to null.
   */
  method BackfillRecord(rec: Record, missing: seq<string>) returns (copy: Record)
    requires Valid(rec)
    ensures copy == Backfill(rec, missing)
  {
    copy := Empty();
    for j := 0 to |rec.keys|
      invariant copy == Prefix(rec, j)
    {
      var v := rec.keys[j];
      PrefixStep(rec, j);
      copy := Set(copy, v, rec.vals[v]);
    }
    PrefixAll(rec);
    for j := 0 to |missing|
      invariant copy == Backfill(rec, missing[..j])
    {
      assert missing[..j + 1][..j] == missing[..j];
      copy := Set(copy, missing[j], Null);
    }
    assert missing[..|missing|] == missing;
  }

  /**
   * The `with open(...)` body of `add_NAs` on one file: the missing
   * variables are worked out from the first record, and each record is
   * backfilled into a new dict under the same id.
   */
  method BackfillFile(data: Document, variables: seq<string>) returns (newData: Document)
    requires WellFormed(data) && data.keys != []
    ensures newData == BackfillDocument(data, variables)
  {
    ghost var target := BackfillDocument(data, variables);
    var missing := MissingVars(variables, data.vals[data.keys[0]]);
    newData := Empty();
    for i := 0 to |data.keys|
      invariant newData == Prefix(target, i)
    {
      var el := data.keys[i];
      var copy := BackfillRecord(data.vals[el], missing);
      BackfillDocumentAt(data, variables, el);
      PrefixStep(target, i);
      newData := Set(newData, el, copy);
    }
    PrefixAll(target);
  }

  /**
   * One file after `add_NAs`: a skipped file as it was, any other with its
   * contents backfilled, under the same name and with the same record ids.
   */
  function BackfillEntry(entry: (string, Document), variables: seq<string>): (r: (string, Document))
    requires WellFormed(entry.1) && (entry.0 != DsStore ==> entry.1.keys != [])
    ensures WellFormed(r.1) && r.0 == entry.0 && r.1.keys == entry.1.keys
  {
    if entry.0 == DsStore then entry else (entry.0, BackfillDocument(entry.1, variables))
  }

  /** The folder `add_NAs` leaves behind once the union is `variables`. */
  function BackfillAll(folder: Folder, variables: seq<string>): (r: Folder)
    requires FolderWellFormed(folder) && NoEmptyFile(folder)
    ensures |r| == |folder| && FolderWellFormed(r)
    ensures forall i :: 0 <= i < |folder| ==> r[i] == BackfillEntry(folder[i], variables)
  {
    seq(|folder|, i requires 0 <= i < |folder| => BackfillEntry(folder[i], variables))
  }

  /** `add_NAs` on a folder: the rewritten folder, or the exception of `get_data_vars`. */
  function AddNAsResult(folder: Folder): (r: Result<Folder>)
    requires FolderWellFormed(folder)
    ensures r.Err? <==> !NoEmptyFile(folder)
    ensures r.Err? ==> r.error == StopIteration
    ensures r.Ok? ==> |r.value| == |folder| && FolderWellFormed(r.value)
    ensures r.Ok? ==> forall i :: 0 <= i < |folder| ==> r.value[i].0 == folder[i].0 && r.value[i].1.keys == folder[i].1.keys
  {
    match DataVars(folder)
    case Err(e) => Err(e)
    case Ok(variables) => Ok(BackfillAll(folder, variables))
  }

  /** `add_NAs`: every file that is not skipped is rewritten, in listing order. */
  method AddNAs(folder: Folder) returns (r: Result<Folder>)
    requires FolderWellFormed(folder)
    ensures r == AddNAsResult(folder)
    ensures r.Err? <==> !NoEmptyFile(folder)
    ensures r.Ok? ==> |r.value| == |folder|
  {
    var result := GetDataVars(folder);
    if result.Err? {
      return Err(result.error);
    }
    var variables := result.value;
    ghost var target := BackfillAll(folder, variables);
    var rewritten: Folder := [];
    for i := 0 to |folder|
      invariant rewritten == target[..i]
    {
      var (filename, data) := folder[i];
      var entry := folder[i];
      if filename != DsStore {
        var newData := BackfillFile(data, variables);
        entry := (filename, newData);
      }
      assert entry == target[i];
      TakeSnoc(target, i);
      rewritten := rewritten + [entry];
    }
    assert target[..|folder|] == target;
    return Ok(rewritten);
  }

  /**
   * A backfilled file's first record has exactly the variables of the union,
   * provided the union covers the variables it had.
   */
  lemma BackfilledFirstRecord(doc: Document, variables: seq<string>)
    requires WellFormed(doc) && doc.keys != []
    requires forall x :: x in FirstRecord(doc).keys ==> x in variables
    ensures BackfillDocument(doc, variables).keys == doc.keys
    ensures FirstRecord(BackfillDocument(doc, variables)).vals.Keys == set x | x in variables
  {
    var first := FirstRecord(doc);
    BackfillDocumentAt(doc, variables, doc.keys[0]);
    BackfilledKeys(first, variables);
  }

  /** Backfilling a record with the union variables it lacks gives it exactly the union's. */
  lemma BackfilledKeys(first: Record, variables: seq<string>)
    requires Valid(first)
    requires forall x :: x in first.keys ==> x in variables
    ensures Backfill(first, MissingVars(variables, first)).vals.Keys == set x | x in variables
  {
    var missing := MissingVars(variables, first);
    var r := Backfill(first, missing);
    forall x | x in variables
      ensures x in r.vals
    {
      if x !in first.vals {
        assert x in missing;
      }
    }
    forall x | x in r.vals
      ensures x in variables
    {
      if x in first.vals {
        assert x in first.keys;
      } else {
        assert x in missing;
      }
    }
  }

  /**
   * In a file whose records all have the first record's variables, every
   * backfilled record has exactly the variables of the union.
   */
  lemma BackfilledUniformFile(doc: Document, variables: seq<string>, id: string)
    requires WellFormed(doc) && doc.keys != []
    requires forall x :: x in FirstRecord(doc).keys ==> x in variables
    requires forall k :: k in doc.vals ==> doc.vals[k].vals.Keys == FirstRecord(doc).vals.Keys
    requires id in doc.vals
    ensures id in BackfillDocument(doc, variables).vals
    ensures BackfillDocument(doc, variables).vals[id].vals.Keys == set x | x in variables
  {
    BackfilledFirstRecord(doc, variables);
    BackfillDocumentAt(doc, variables, doc.keys[0]);
    BackfillDocumentAt(doc, variables, id);
  }

  /**
   * A record backfilled with the union variables the first record lacks
   * ends with exactly the union's variables iff its own variables include
   * the first record's and lie within the union.
   */
  lemma BackfillExactly(first: Record, rec: Record, variables: seq<string>)
    requires Valid(first) && Valid(rec)
    requires forall x :: x in first.vals ==> x in variables
    ensures Backfill(rec, MissingVars(variables, first)).vals.Keys == (set x | x in variables)
        <==> (first.vals.Keys <= rec.vals.Keys && forall k :: k in rec.vals ==> k in variables)
  {
    var missing := MissingVars(variables, first);
    var out := Backfill(rec, missing);
    var union := set x | x in variables;
    if out.vals.Keys == union {
      forall x | x in first.vals
        ensures x in rec.vals
      {
        assert x in union;
        assert x in out.vals && x !in missing;
      }
      forall k | k in rec.vals
        ensures k in variables
      {
        assert k in out.vals.Keys;
      }
    }
    if first.vals.Keys <= rec.vals.Keys && forall k :: k in rec.vals ==> k in variables {
      forall x | x in variables
        ensures x in out.vals
      {
        if x !in first.vals {
          assert x in missing;
        }
      }
      forall x | x in out.vals
        ensures x in union
      {
        if x !in rec.vals {
          assert x in missing;
        }
      }
    }
  }

  /**
   * Exactly which records of a rewritten file end with the union's
   * variables: those whose own variables include the first record's and
   * lie within the union.
   */
  lemma BackfilledExactly(doc: Document, variables: seq<string>, id: string)
    requires WellFormed(doc) && doc.keys != [] && id in doc.vals
    requires forall x :: x in FirstRecord(doc).keys ==> x in variables
    ensures id in BackfillDocument(doc, variables).vals
    ensures BackfillDocument(doc, variables).vals[id].vals.Keys == (set x | x in variables)
        <==> (FirstRecord(doc).vals.Keys <= doc.vals[id].vals.Keys
              && forall k :: k in doc.vals[id].vals ==> k in variables)
  {
    BackfillDocumentAt(doc, variables, id);
    BackfillExactly(FirstRecord(doc), doc.vals[id], variables);
  }

  /**
   * What `add_NAs` guarantees of the folder it leaves behind: every file
   * keeps its name and its record ids in their order; the first record of
   * every file that is not skipped has exactly the union's variables; and
   * so has every record of a file whose records all had the same variables.
   */
  lemma AddNAsUniform(folder: Folder, i: nat)
    requires FolderWellFormed(folder) && AddNAsResult(folder).Ok? && i < |folder|
    ensures var out := AddNAsResult(folder).value; var variables := DataVars(folder).value;
      && |out| == |folder|
      && out[i].0 == folder[i].0
      && out[i].1.keys == folder[i].1.keys
      && (folder[i].0 == DsStore ==> out[i] == folder[i])
      && (folder[i].0 != DsStore ==>
            && out[i].1.keys != []
            && FirstRecord(out[i].1).vals.Keys == set x | x in variables
            && ((forall k :: k in folder[i].1.vals ==> folder[i].1.vals[k].vals.Keys == FirstRecord(folder[i].1).vals.Keys)
                ==> forall k :: k in out[i].1.vals ==> out[i].1.vals[k].vals.Keys == set x | x in variables))
  {
    var variables := DataVars(folder).value;
    if folder[i].0 != DsStore {
      var doc := folder[i].1;
      FirstKeysCover(folder, i);
      BackfilledFirstRecord(doc, variables);
      if forall k :: k in doc.vals ==> doc.vals[k].vals.Keys == FirstRecord(doc).vals.Keys {
        forall k | k in BackfillDocument(doc, variables).vals
          ensures BackfillDocument(doc, variables).vals[k].vals.Keys == set x | x in variables
        {
          BackfilledUniformFile(doc, variables, k);
        }
      }
    }
  }

  /**
   * `add_NAs` decides what is missing from the first record alone. For a
   * variable `v` of the union: if the first record lacks `v`, every record
   * of the file ends with `v` null, even one that had a value for it; if
   * the first record has `v`, a record is backfilled as it was, and one
   * that lacks `v` stays without it.
   */
  lemma FirstRecordDecides(doc: Document, variables: seq<string>, id: string, v: string)
    requires WellFormed(doc) && doc.keys != [] && id in doc.vals && v in variables
    ensures var out := BackfillDocument(doc, variables).vals[id];
      && (v !in FirstRecord(doc).vals ==> v in out.vals && out.vals[v] == Null)
      && (v in FirstRecord(doc).vals ==>
            (v in out.vals <==> v in doc.vals[id].vals)
            && (v in out.vals ==> out.vals[v] == doc.vals[id].vals[v]))
  {
    BackfillDocumentAt(doc, variables, id);
  }
}
