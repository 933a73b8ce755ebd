/** `_copy_but` of `mo_hg/hg_mozilla_org.py`: a copy of a nested mapping
    without the keys an exclusion mapping marks `True`, without `None`
    values, and without mappings that end up empty. Mappings are lists of
    key/value pairs in insertion order, as Python dictionaries keep them. */
module CopyBut {
  import opened Wrappers

  /** A JSON-like value: `None`, a value that is not a mapping, or a
      mapping. */
  datatype Value = Null | Leaf(text: string) | Data(items: seq<(string, Value)>)

  /** An exclusion entry: `True`, or a mapping of sub-exclusions. */
  datatype Exclusion = Skip | Nested(items: seq<(string, Exclusion)>)

  /** `m.get(k)` on key/value pairs: the value of the first pair with key
      `k`. */
  function Lookup<V>(items: seq<(string, V)>, k: string): (r: Option<V>)
  {
    if |items| == 0 then None
    else if items[0].0 == k then Some(items[0].1)
    else Lookup(items[1..], k)
  }

  /** `exclude.get(k, {})`. */
  function Get(exclude: seq<(string, Exclusion)>, k: string): Exclusion
  {
    match Lookup(exclude, k)
    case Some(e) => e
    case None => Nested([])
  }

  /** The keys of a mapping. */
  predicate HasKey<V>(items: seq<(string, V)>, k: string)
  {
    exists i :: 0 <= i < |items| && items[i].0 == k
  }

  /** `output[k] = v`: replaces the value of an existing key in place,
      otherwise appends the pair. */
  function Put<V>(items: seq<(string, V)>, k: string, v: V): (r: seq<(string, V)>)
    ensures |r| > 0
  {
    if |items| == 0 then [(k, v)]
    else if items[0].0 == k then [(k, v)] + items[1..]
    else [items[0]] + Put(items[1..], k, v)
  }

  /** `Put` adds the key and keeps the others. */
  lemma {:induction false} PutKeys<V>(items: seq<(string, V)>, k: string, v: V, key: string)
    ensures HasKey(Put(items, k, v), key) <==> key == k || HasKey(items, key)
  {
    var r := Put(items, k, v);
    if |items| == 0 {
      assert r[0].0 == k;
    } else if items[0].0 == k {
      assert r[0].0 == k;
      if HasKey(items, key) {
        var i :| 0 <= i < |items| && items[i].0 == key;
        assert r[i].0 == key;
      }
      if HasKey(r, key) {
        var i :| 0 <= i < |r| && r[i].0 == key;
        assert items[i].0 == key;
      }
    } else {
      var rest := Put(items[1..], k, v);
      assert r == [items[0]] + rest;
      PutKeys(items[1..], k, v, key);
      if key == k || HasKey(items, key) {
        if key == k || exists i :: 1 <= i < |items| && items[i].0 == key {
          if key != k {
            var i :| 1 <= i < |items| && items[i].0 == key;
            assert items[1..][i - 1].0 == key;
          }
          var j :| 0 <= j < |rest| && rest[j].0 == key;
          assert r[j + 1].0 == key;
        } else {
          assert r[0].0 == key;
        }
      }
      if HasKey(r, key) {
        var i :| 0 <= i < |r| && r[i].0 == key;
        if i > 0 {
          assert rest[i - 1].0 == key;
        } else {
          assert items[0].0 == key;
        }
      }
    }
  }

  /** The pairs `_copy_but` keeps from the first `n` pairs of `items`. */
  function CopyFields(items: seq<(string, Value)>, n: nat, exclude: seq<(string, Exclusion)>): seq<(string, Value)>
    requires n <= |items|
    decreases Data(items), n
  {
    if n == 0 then []
    else
      var prev := CopyFields(items, n - 1, exclude);
      var k := items[n - 1].0;
      var v := items[n - 1].1;
      match Get(exclude, k)
      case Skip => prev
      case Nested(sub) =>
        if v.Data? then
          var v2 := CopiedBut(v.items, sub);
          if v2.Null? then prev else Put(prev, k, v2)
        else if v.Null? then prev
        else Put(prev, k, v)
  }

  /** `_copy_but(value, exclude)` for a mapping `value`: the kept pairs, or
      `None` when none is kept. */
  function CopiedBut(items: seq<(string, Value)>, exclude: seq<(string, Exclusion)>): Value
    decreases Data(items), |items| + 1
  {
    var out := CopyFields(items, |items|, exclude);
    if |out| == 0 then Null else Data(out)
  }

  /** `_copy_but` as the source runs it: a loop over the pairs filling
      `output`, recursing into mapping values. */
  method CopyButOf(items: seq<(string, Value)>, exclude: seq<(string, Exclusion)>) returns (r: Value)
    ensures r == CopiedBut(items, exclude)
    decreases Data(items)
  {
    var output: seq<(string, Value)> := [];
    for i := 0 to |items|
      invariant output == CopyFields(items, i, exclude)
    {
      var k := items[i].0;
      var v := items[i].1;
      var e := Get(exclude, k);
      if e.Nested? {
        if v.Data? {
          var v2 := CopyButOf(v.items, e.items);
          if !v2.Null? {
            output := Put(output, k, v2);
          }
        } else if !v.Null? {
          output := Put(output, k, v);
        }
      }
    }
    if |output| == 0 {
      r := Null;
    } else {
      r := Data(output);
    }
  }

  // ----- what the copy keeps -----

  /** Every key the copy keeps is a key of the input whose exclusion entry
      is not `True`. */
  lemma {:induction false} CopyFieldsKeys(items: seq<(string, Value)>, n: nat, exclude: seq<(string, Exclusion)>)
    requires n <= |items|
    ensures forall k :: HasKey(CopyFields(items, n, exclude), k) ==>
      Get(exclude, k) != Skip && exists i :: 0 <= i < n && items[i].0 == k
  {
    if n > 0 {
      CopyFieldsKeys(items, n - 1, exclude);
      var prev := CopyFields(items, n - 1, exclude);
      var k := items[n - 1].0;
      forall key | HasKey(CopyFields(items, n, exclude), key)
        ensures Get(exclude, key) != Skip && exists i :: 0 <= i < n && items[i].0 == key
      {
        if CopyFields(items, n, exclude) != prev {
          var x :| CopyFields(items, n, exclude) == Put(prev, k, x);
          PutKeys(prev, k, x, key);
        }
      }
    }
  }

  /** No `None` anywhere, and no empty mapping anywhere. */
  predicate Clean(v: Value)
  {
    match v
    case Null => false
    case Leaf(_) => true
    case Data(items) => |items| > 0 && forall i :: 0 <= i < |items| ==> Clean(items[i].1)
  }

  /** The copy never holds a `None` value or an empty mapping. */
  lemma {:induction false} CopyFieldsClean(items: seq<(string, Value)>, n: nat, exclude: seq<(string, Exclusion)>)
    requires n <= |items|
    ensures forall i :: 0 <= i < |CopyFields(items, n, exclude)| ==> Clean(CopyFields(items, n, exclude)[i].1)
    decreases Data(items), n
  {
    if n > 0 {
      var prev := CopyFields(items, n - 1, exclude);
      CopyFieldsClean(items, n - 1, exclude);
      var k := items[n - 1].0;
      var v := items[n - 1].1;
      var e := Get(exclude, k);
      if e.Nested? {
        if v.Data? {
          var v2 := CopiedBut(v.items, e.items);
          if !v2.Null? {
            CopiedButClean(v.items, e.items);
            PutKeeps(prev, k, v2, Clean);
          }
        } else if !v.Null? {
          PutKeeps(prev, k, v, Clean);
        }
      }
    }
  }

  /** `_copy_but` returns `None` rather than an empty mapping, and what it
      returns otherwise is clean. */
  lemma CopiedButClean(items: seq<(string, Value)>, exclude: seq<(string, Exclusion)>)
    ensures CopiedBut(items, exclude).Null? || Clean(CopiedBut(items, exclude))
    decreases Data(items), |items| + 1
  {
    CopyFieldsClean(items, |items|, exclude);
  }

  /** A property of every value survives `Put` of a value that has it. */
  lemma {:induction false} PutKeeps<V>(items: seq<(string, V)>, k: string, v: V, p: V -> bool)
    requires forall i :: 0 <= i < |items| ==> p(items[i].1)
    requires p(v)
    ensures forall i :: 0 <= i < |Put(items, k, v)| ==> p(Put(items, k, v)[i].1)
  {
    if |items| > 0 && items[0].0 != k {
      PutKeeps(items[1..], k, v, p);
    }
  }

  // ----- what the copy holds for each key -----

  /** No key occurs twice, as in a Python dictionary. */
  predicate UniqueKeys<V>(items: seq<(string, V)>)
  {
    forall i, j :: 0 <= i < j < |items| ==> items[i].0 != items[j].0
  }

  /** What the copy holds for the pair `(k, v)` of the input. */
  function Kept(k: string, v: Value, exclude: seq<(string, Exclusion)>): Option<Value>
  {
    match Get(exclude, k)
    case Skip => None
    case Nested(sub) =>
      if v.Data? then
        var v2 := CopiedBut(v.items, sub);
        if v2.Null? then None else Some(v2)
      else if v.Null? then None
      else Some(v)
  }

  /** With keys unique, the copy holds, for every pair of the input, what
      `Kept` says: a value that is neither a mapping nor `None` unchanged,
      a mapping copied with its own exclusion entry, nothing for an
      excluded key; and nothing for a key the input lacks. */
  lemma {:induction false} CopyFieldsLookup(items: seq<(string, Value)>, n: nat, exclude: seq<(string, Exclusion)>)
    requires n <= |items| && UniqueKeys(items)
    ensures forall i :: 0 <= i < n ==> Lookup(CopyFields(items, n, exclude), items[i].0) == Kept(items[i].0, items[i].1, exclude)
    ensures forall k :: (forall i :: 0 <= i < n ==> items[i].0 != k) ==> Lookup(CopyFields(items, n, exclude), k).None?
  {
    if n > 0 {
      CopyFieldsLookup(items, n - 1, exclude);
      var prev := CopyFields(items, n - 1, exclude);
      var k := items[n - 1].0;
      var v := items[n - 1].1;
      match Kept(k, v, exclude)
      case None =>
      case Some(x) =>
        assert CopyFields(items, n, exclude) == Put(prev, k, x);
        PutLookup(prev, k, x);
    }
  }

  /** After `Put`, the key reads the new value and the other keys read
      what they read before. */
  lemma {:induction false} PutLookup<V>(items: seq<(string, V)>, k: string, v: V)
    ensures Lookup(Put(items, k, v), k) == Some(v)
    ensures forall key :: key != k ==> Lookup(Put(items, k, v), key) == Lookup(items, key)
  {
    if |items| > 0 && items[0].0 != k {
      PutLookup(items[1..], k, v);
    }
  }

  /** `_copy_but` on a mapping with unique keys: each key reads what
      `Kept` says for its pair, and a key the input lacks reads nothing. */
  lemma CopiedButLookup(items: seq<(string, Value)>, exclude: seq<(string, Exclusion)>, k: string)
    requires UniqueKeys(items)
    ensures CopiedBut(items, exclude).Data? ==>
      Lookup(CopiedBut(items, exclude).items, k) ==
        match Lookup(items, k)
        case None => None
        case Some(v) => Kept(k, v, exclude)
    ensures CopiedBut(items, exclude).Null? ==> forall i :: 0 <= i < |items| ==> Kept(items[i].0, items[i].1, exclude).None?
  {
    CopyFieldsLookup(items, |items|, exclude);
    LookupFirst(items, k);
  }

  /** `Lookup` finds a pair with the key when there is one. */
  lemma {:induction false} LookupFirst<V>(items: seq<(string, V)>, k: string)
    ensures Lookup(items, k).Some? ==> exists i :: 0 <= i < |items| && items[i].0 == k && Lookup(items, k) == Some(items[i].1)
    ensures Lookup(items, k).None? ==> forall i :: 0 <= i < |items| ==> items[i].0 != k
  {
    if |items| > 0 && items[0].0 != k {
      LookupFirst(items[1..], k);
      if Lookup(items, k).Some? {
        var i :| 0 <= i < |items[1..]| && items[1..][i].0 == k && Lookup(items[1..], k) == Some(items[1..][i].1);
        assert items[i + 1] == items[1..][i];
      }
    }
  }
}
