/** Line-number tracking through a unified diff (`mo_hg/apply.py`), on
    values: a file's lines are a sequence of `(line, is_new_line, filename)`
    triples, and `add_one`, `remove_one`, `apply_diff` and the reversal of
    `apply_diff_backwards` are functions on them. The objects that carry these
    values, and the methods that update them in place, are in `DiffApply`. */
module DiffValues {
  import opened Wrappers

  /** Python's clamping of a slice bound `k` into `[0, n]`; a negative bound
      counts from the end. */
  function Norm(k: int, n: nat): (r: nat)
    ensures r <= n
    ensures 0 <= k <= n ==> r == k
  {
    if k < 0 then (if n + k < 0 then 0 else n + k)
    else if k > n then n
    else k
  }

  /** `s.lstrip("/")`. */
  function LStrip(s: string): (r: string)
    ensures |r| <= |s| && r == s[|s| - |r|..]
    ensures |r| > 0 ==> r[0] != '/'
    ensures forall i :: 0 <= i < |s| - |r| ==> s[i] == '/'
  {
    if |s| > 0 && s[0] == '/' then LStrip(s[1..]) else s
  }

  /** Stripping twice strips nothing more. */
  lemma LStripIdempotent(s: string)
    ensures LStrip(LStrip(s)) == LStrip(s)
  {
  }

  /** The fields of one `Line` object. */
  datatype LineV = LineV(line: int, isNew: bool, filename: string)

  /** `move_down` (`d = 1`) or `move_up` (`d = -1`) applied to every line. */
  function Shift(vs: seq<LineV>, d: int): (r: seq<LineV>)
    ensures |r| == |vs|
    ensures forall j :: 0 <= j < |vs| ==> r[j] == vs[j].(line := vs[j].line + d)
  {
    seq(|vs|, j requires 0 <= j < |vs| => vs[j].(line := vs[j].line + d))
  }

  /** `add_one(v)`: `v` goes in before slice index `v.line - 1`, and the
      lines from there on move down one. */
  function AddOneV(vs: seq<LineV>, v: LineV): seq<LineV>
  {
    var k := Norm(v.line - 1, |vs|);
    vs[..k] + [v] + Shift(vs[k..], 1)
  }

  /** `remove_one(n)`: keep the lines before slice index `n - 1`, drop up to
      slice index `n`, and move the rest up one. */
  function RemoveOneV(vs: seq<LineV>, n: int): seq<LineV>
  {
    vs[..Norm(n - 1, |vs|)] + Shift(vs[Norm(n, |vs|)..], -1)
  }

  /** Every line's number is its 1-based position. */
  predicate Numbered(vs: seq<LineV>)
  {
    forall j :: 0 <= j < |vs| ==> vs[j].line == j + 1
  }

  /** `add_one` at a position inside the file (or just past its end): one
      more line, `v` at index `v.line - 1`, the lines before it untouched and
      every later one moved down. */
  lemma AddOneShape(vs: seq<LineV>, v: LineV)
    requires 1 <= v.line <= |vs| + 1
    ensures var r := AddOneV(vs, v);
      && |r| == |vs| + 1
      && r[v.line - 1] == v
      && (forall j :: 0 <= j < v.line - 1 ==> r[j] == vs[j])
      && (forall j :: v.line - 1 < j < |r| ==> r[j] == vs[j - 1].(line := vs[j - 1].line + 1))
  {
  }

  /** `remove_one(n)` for a line of the file: one line fewer, the lines
      before index `n - 1` untouched and every later one moved up; past the
      end nothing changes. */
  lemma RemoveOneShape(vs: seq<LineV>, n: int)
    requires n >= 1
    ensures var r := RemoveOneV(vs, n);
      && (n <= |vs| ==>
            && |r| == |vs| - 1
            && (forall j :: 0 <= j < n - 1 ==> r[j] == vs[j])
            && (forall j :: n - 1 <= j < |r| ==> r[j] == vs[j + 1].(line := vs[j + 1].line - 1)))
      && (n > |vs| ==> r == vs)
  {
    if n > |vs| {
      assert vs[..|vs|] == vs;
    }
  }

  /** `add_one` keeps every line's number equal to its position. */
  lemma AddOneNumbered(vs: seq<LineV>, v: LineV)
    requires Numbered(vs) && 1 <= v.line <= |vs| + 1
    ensures Numbered(AddOneV(vs, v))
  {
    AddOneShape(vs, v);
  }

  /** `remove_one` keeps every line's number equal to its position. */
  lemma RemoveOneNumbered(vs: seq<LineV>, n: int)
    requires Numbered(vs) && 1 <= n
    ensures Numbered(RemoveOneV(vs, n))
  {
    RemoveOneShape(vs, n);
  }

  /** Removing the line just added restores the file. */
  lemma RemoveAfterAdd(vs: seq<LineV>, v: LineV)
    requires 1 <= v.line <= |vs| + 1
    ensures RemoveOneV(AddOneV(vs, v), v.line) == vs
  {
    var k := v.line - 1;
    var r := AddOneV(vs, v);
    assert r[..k] == vs[..k];
    assert r[k + 1..] == Shift(vs[k..], 1);
    assert Shift(Shift(vs[k..], 1), -1) == vs[k..];
    assert vs == vs[..k] + vs[k..];
  }

  /** Adding a line where one was removed restores the file, except that the
      removed line's fields are those of the new one. */
  lemma AddAfterRemove(vs: seq<LineV>, n: int, v: LineV)
    requires 1 <= n <= |vs| && v.line == n
    ensures AddOneV(RemoveOneV(vs, n), v) == vs[n - 1 := v]
  {
    var r := RemoveOneV(vs, n);
    assert r[..n - 1] == vs[..n - 1];
    assert r[n - 1..] == Shift(vs[n..], -1);
    assert Shift(Shift(vs[n..], -1), 1) == vs[n..];
  }

  /** `_format_line_objects`: a line numbered 0 (falsy) takes its 1-based
      position, any other keeps its number. */
  function Formatted(vs: seq<LineV>): (r: seq<LineV>)
    ensures |r| == |vs|
  {
    seq(|vs|, j requires 0 <= j < |vs| => if vs[j].line != 0 then vs[j] else vs[j].(line := j + 1))
  }

  /** After formatting no line is numbered 0, numbered lines keep their
      number, and only the number changes. */
  lemma FormattedLines(vs: seq<LineV>)
    ensures forall j :: 0 <= j < |vs| ==> Formatted(vs)[j].line != 0
    ensures forall j :: 0 <= j < |vs| && vs[j].line != 0 ==> Formatted(vs)[j] == vs[j]
    ensures forall j :: 0 <= j < |vs| ==> Formatted(vs)[j] == vs[j].(line := Formatted(vs)[j].line)
  {
  }

  /** Formatting twice changes nothing more. */
  lemma FormattedIdempotent(vs: seq<LineV>)
    ensures Formatted(Formatted(vs)) == Formatted(vs)
  {
  }

  /** Lines that all start unnumbered come out numbered by position. */
  lemma FormattedNumbers(vs: seq<LineV>)
    requires forall j :: 0 <= j < |vs| ==> vs[j].line == 0
    ensures Numbered(Formatted(vs))
  {
  }

  /** `reset_new_lines`: no line is new any more. */
  function Cleared(vs: seq<LineV>): (r: seq<LineV>)
    ensures |r| == |vs|
  {
    seq(|vs|, j requires 0 <= j < |vs| => vs[j].(isNew := false))
  }

  /** `set_filenames`: every line carries the file's name. */
  function Renamed(vs: seq<LineV>, filename: string): (r: seq<LineV>)
    ensures |r| == |vs|
  {
    seq(|vs|, j requires 0 <= j < |vs| => vs[j].(filename := filename))
  }

  /** `get_new_lines` on values: the new lines, in order. */
  function NewLinesV(vs: seq<LineV>): (r: seq<LineV>)
    ensures |r| <= |vs|
    ensures forall v :: v in r <==> v in vs && v.isNew
  {
    if |vs| == 0 then []
    else NewLinesV(vs[..|vs| - 1]) + (if vs[|vs| - 1].isNew then [vs[|vs| - 1]] else [])
  }

  /** Resetting leaves no new lines and keeps numbers and names; renaming
      keeps numbers and the new-line flags. */
  lemma ResetAndRename(vs: seq<LineV>, filename: string)
    ensures NewLinesV(Cleared(vs)) == []
    ensures forall j :: 0 <= j < |vs| ==>
      && Cleared(vs)[j].line == vs[j].line && Cleared(vs)[j].filename == vs[j].filename
      && Renamed(vs, filename)[j].line == vs[j].line && Renamed(vs, filename)[j].isNew == vs[j].isNew
  {
    NoNewLines(Cleared(vs));
  }

  lemma {:induction false} NoNewLines(vs: seq<LineV>)
    requires forall j :: 0 <= j < |vs| ==> !vs[j].isNew
    ensures NewLinesV(vs) == []
  {
    if |vs| > 0 {
      NoNewLines(vs[..|vs| - 1]);
    }
  }

  /** An inserted line is new, so it is among the new lines. */
  lemma AddedIsNew(vs: seq<LineV>, c: ChangeV, filename: string)
    requires c.action == "+"
    ensures LineV(c.line + 1, true, filename) in NewLinesV(ApplyChange(vs, c, filename))
  {
    var k := Norm(c.line, |vs|);
    var v := LineV(c.line + 1, true, filename);
    assert AddOneV(vs, v)[k] == v;
  }

  // ----- applying changes -----

  /** One change of a diff: `"+"` or `"-"` (anything else is ignored) at a
      0-based line. */
  datatype ChangeV = ChangeV(action: string, line: int)

  /** The body of the `for change in f_diff` loop of `apply_diff`. */
  function ApplyChange(vs: seq<LineV>, c: ChangeV, filename: string): seq<LineV>
  {
    if c.action == "+" then AddOneV(vs, LineV(c.line + 1, true, filename))
    else if c.action == "-" then RemoveOneV(vs, c.line + 1)
    else vs
  }

  /** The changes applied in the order listed. */
  function ApplyChanges(vs: seq<LineV>, cs: seq<ChangeV>, filename: string): seq<LineV>
  {
    if |cs| == 0 then vs
    else ApplyChange(ApplyChanges(vs, cs[..|cs| - 1], filename), cs[|cs| - 1], filename)
  }

  lemma {:induction false} ApplyChangesAppend(vs: seq<LineV>, a: seq<ChangeV>, b: seq<ChangeV>, filename: string)
    ensures ApplyChanges(vs, a + b, filename) == ApplyChanges(ApplyChanges(vs, a, filename), b, filename)
    decreases |b|
  {
    if |b| == 0 {
      assert a + b == a;
    } else {
      assert (a + b)[..|a + b| - 1] == a + b[..|b| - 1];
      ApplyChangesAppend(vs, a, b[..|b| - 1], filename);
    }
  }

  /** Numbers of insertions and of removals. */
  function Plus(cs: seq<ChangeV>): nat
  {
    if |cs| == 0 then 0 else Plus(cs[..|cs| - 1]) + (if cs[|cs| - 1].action == "+" then 1 else 0)
  }

  function Minus(cs: seq<ChangeV>): nat
  {
    if |cs| == 0 then 0 else Minus(cs[..|cs| - 1]) + (if cs[|cs| - 1].action == "-" then 1 else 0)
  }

  /** Every insertion adds a line and every removal removes at most one, so
      the length changes by at most the net count of the diff. */
  lemma {:induction false} ApplyChangesLength(vs: seq<LineV>, cs: seq<ChangeV>, filename: string)
    requires forall k :: 0 <= k < |cs| ==> cs[k].line >= 0
    ensures var r := ApplyChanges(vs, cs, filename);
      |vs| + Plus(cs) - Minus(cs) <= |r| <= |vs| + Plus(cs)
  {
    if |cs| > 0 {
      var init := cs[..|cs| - 1];
      assert forall k :: 0 <= k < |init| ==> init[k] == cs[k];
      ApplyChangesLength(vs, init, filename);
      var c := cs[|cs| - 1];
      if c.action == "-" {
        RemoveOneShape(ApplyChanges(vs, init, filename), c.line + 1);
      }
    }
  }

  // ----- reversal -----

  /** `"+"` and `"-"` swapped. */
  function Flip(c: ChangeV): ChangeV
  {
    if c.action == "+" then c.(action := "-")
    else if c.action == "-" then c.(action := "+")
    else c
  }

  /** The changes of `apply_diff_backwards`: the `"+"` and `"-"` changes,
      flipped, last first. */
  function Reversed(cs: seq<ChangeV>): seq<ChangeV>
  {
    if |cs| == 0 then []
    else
      var c := cs[|cs| - 1];
      (if c.action == "+" || c.action == "-" then [Flip(c)] else []) + Reversed(cs[..|cs| - 1])
  }

  /** Reversal keeps the changes' line numbers. */
  lemma {:induction false} ReversedLines(cs: seq<ChangeV>)
    requires forall k :: 0 <= k < |cs| ==> cs[k].line >= 0
    ensures forall k :: 0 <= k < |Reversed(cs)| ==> Reversed(cs)[k].line >= 0
  {
    if |cs| > 0 {
      ReversedLines(cs[..|cs| - 1]);
    }
  }

  /** Reversal swaps the counts, so it negates the net line change. */
  lemma {:induction false} ReversedCounts(cs: seq<ChangeV>)
    ensures Plus(Reversed(cs)) == Minus(cs) && Minus(Reversed(cs)) == Plus(cs)
  {
    if |cs| > 0 {
      var c := cs[|cs| - 1];
      var head := if c.action == "+" || c.action == "-" then [Flip(c)] else [];
      ReversedCounts(cs[..|cs| - 1]);
      CountsAppend(head, Reversed(cs[..|cs| - 1]));
    }
  }

  lemma {:induction false} CountsAppend(a: seq<ChangeV>, b: seq<ChangeV>)
    ensures Plus(a + b) == Plus(a) + Plus(b) && Minus(a + b) == Minus(a) + Minus(b)
    decreases |b|
  {
    if |b| == 0 {
      assert a + b == a;
    } else {
      assert (a + b)[..|a + b| - 1] == a + b[..|b| - 1];
      CountsAppend(a, b[..|b| - 1]);
    }
  }

  lemma {:induction false} ReversedAppend(a: seq<ChangeV>, b: seq<ChangeV>)
    ensures Reversed(a + b) == Reversed(b) + Reversed(a)
    decreases |b|
  {
    if |b| == 0 {
      assert a + b == a;
    } else {
      var init := b[..|b| - 1];
      var c := b[|b| - 1];
      var head := if c.action == "+" || c.action == "-" then [Flip(c)] else [];
      calc {
        Reversed(a + b);
        { assert (a + b)[..|a + b| - 1] == a + init; }
        head + Reversed(a + init);
        { ReversedAppend(a, init); }
        head + (Reversed(init) + Reversed(a));
        (head + Reversed(init)) + Reversed(a);
        Reversed(b) + Reversed(a);
      }
    }
  }

  /** Reversing twice gives back a diff made only of insertions and
      removals. */
  lemma {:induction false} ReversedTwice(cs: seq<ChangeV>)
    requires forall k :: 0 <= k < |cs| ==> cs[k].action == "+" || cs[k].action == "-"
    ensures Reversed(Reversed(cs)) == cs
  {
    if |cs| > 0 {
      var init := cs[..|cs| - 1];
      var c := cs[|cs| - 1];
      assert forall k :: 0 <= k < |init| ==> init[k] == cs[k];
      calc {
        Reversed(Reversed(cs));
        Reversed([Flip(c)] + Reversed(init));
        { ReversedAppend([Flip(c)], Reversed(init)); }
        Reversed(Reversed(init)) + Reversed([Flip(c)]);
        { ReversedTwice(init); }
        init + Reversed([Flip(c)]);
        { assert [Flip(c)][..0] == []; }
        init + [c];
        cs;
      }
    }
  }

  /** Insertions each at or before the end of the file as it then is. */
  predicate InsertsFit(n: nat, cs: seq<ChangeV>)
  {
    forall k :: 0 <= k < |cs| ==> cs[k].action == "+" && 0 <= cs[k].line <= n + k
  }

  /** A diff of insertions applied forwards and then backwards gives back the
      file. */
  lemma {:induction false} InsertsRoundTrip(vs: seq<LineV>, cs: seq<ChangeV>, filename: string)
    requires InsertsFit(|vs|, cs)
    ensures |ApplyChanges(vs, cs, filename)| == |vs| + |cs|
    ensures ApplyChanges(ApplyChanges(vs, cs, filename), Reversed(cs), filename) == vs
  {
    if |cs| > 0 {
      var init := cs[..|cs| - 1];
      var c := cs[|cs| - 1];
      assert InsertsFit(|vs|, init) by {
        assert forall k :: 0 <= k < |init| ==> init[k] == cs[k];
      }
      InsertsRoundTrip(vs, init, filename);
      var w := ApplyChanges(vs, init, filename);
      var v := LineV(c.line + 1, true, filename);
      AddOneShape(w, v);
      assert Reversed(cs) == [Flip(c)] + Reversed(init);
      ApplyChangesAppend(AddOneV(w, v), [Flip(c)], Reversed(init), filename);
      assert [Flip(c)][..0] == [];
      RemoveAfterAdd(w, v);
    }
  }

  // ----- whole diffs -----

  /** One file's entry of a diff. */
  datatype FileDiffV = FileDiffV(oldName: string, newName: string, changes: seq<ChangeV>)

  /** A diff: its file entries and whether it is a merge. */
  datatype DiffV = DiffV(diffs: seq<FileDiffV>, merge: bool)

  /** A `SourceFile`'s name and its lines. */
  datatype FileV = FileV(filename: string, lines: seq<LineV>)

  /** The entry names this file, under its old or new name. */
  predicate Matches(fd: FileDiffV, filename: string)
  {
    LStrip(fd.newName) == filename || LStrip(fd.oldName) == filename
  }

  /** The first entry from index `from` on that names the file. */
  function FirstMatch(diffs: seq<FileDiffV>, filename: string, from: nat): (r: Option<nat>)
    requires from <= |diffs|
    ensures r.Some? ==>
      && from <= r.value < |diffs|
      && Matches(diffs[r.value], filename)
      && (forall j :: from <= j < r.value ==> !Matches(diffs[j], filename))
    ensures r.None? ==> forall j :: from <= j < |diffs| ==> !Matches(diffs[j], filename)
    decreases |diffs| - from
  {
    if from == |diffs| then None
    else if Matches(diffs[from], filename) then Some(from)
    else FirstMatch(diffs, filename, from + 1)
  }

  /** The file entry applied to the file: a rename to `dev/null` empties it,
      another rename renames it, and the changes are applied under the name
      the file then has. */
  function ApplyEntry(f: FileV, fd: FileDiffV): FileV
  {
    var newName := LStrip(fd.newName);
    var oldName := LStrip(fd.oldName);
    if oldName != newName && newName == "dev/null" then FileV(f.filename, [])
    else
      var name := if oldName != newName then newName else f.filename;
      FileV(name, ApplyChanges(f.lines, fd.changes, name))
  }

  /** `apply_diff`: the new file and whether the diff touched it. */
  function ApplyDiffV(f: FileV, d: DiffV): (FileV, bool)
  {
    if d.merge then (f, false)
    else if LStrip(f.filename) == "dev/null" then (FileV(f.filename, []), false)
    else
      match FirstMatch(d.diffs, f.filename, 0)
      case None => (f, false)
      case Some(i) => (ApplyEntry(f, d.diffs[i]), true)
  }

  /** The early exits: a merge is left alone and `dev/null` is emptied,
      neither counting as touched. */
  lemma ApplyDiffExits(f: FileV, d: DiffV)
    ensures d.merge ==> ApplyDiffV(f, d) == (f, false)
    ensures !d.merge && LStrip(f.filename) == "dev/null" ==> ApplyDiffV(f, d) == (FileV(f.filename, []), false)
  {
  }

  /** Otherwise the file is touched exactly when an entry names it, and the
      result is the first such entry's. */
  lemma ApplyDiffFirstEntry(f: FileV, d: DiffV, i: nat)
    requires !d.merge && LStrip(f.filename) != "dev/null"
    requires i < |d.diffs| && Matches(d.diffs[i], f.filename)
    requires forall j :: 0 <= j < i ==> !Matches(d.diffs[j], f.filename)
    ensures ApplyDiffV(f, d) == (ApplyEntry(f, d.diffs[i]), true)
  {
    var m := FirstMatch(d.diffs, f.filename, 0);
    assert !(m.value < i) && !(i < m.value);
  }

  lemma ApplyDiffUntouched(f: FileV, d: DiffV)
    requires !d.merge && LStrip(f.filename) != "dev/null"
    requires forall j :: 0 <= j < |d.diffs| ==> !Matches(d.diffs[j], f.filename)
    ensures ApplyDiffV(f, d) == (f, false)
  {
    var m := FirstMatch(d.diffs, f.filename, 0);
    assert m.None?;
  }

  /** The diff `apply_diff_backwards` builds: names swapped, each entry's
      changes reversed; the merge flag is kept. */
  function BackwardsV(d: DiffV): DiffV
  {
    DiffV(BackwardsEntries(d.diffs), d.merge)
  }

  function BackwardsEntries(diffs: seq<FileDiffV>): (r: seq<FileDiffV>)
    ensures |r| == |diffs|
    ensures forall i :: 0 <= i < |diffs| ==>
      r[i] == FileDiffV(diffs[i].newName, diffs[i].oldName, Reversed(diffs[i].changes))
  {
    if |diffs| == 0 then []
    else
      var fd := diffs[|diffs| - 1];
      BackwardsEntries(diffs[..|diffs| - 1]) + [FileDiffV(fd.newName, fd.oldName, Reversed(fd.changes))]
  }

  /** The reversed diff negates every entry's net line change and touches
      the same files. */
  lemma BackwardsNet(d: DiffV, i: nat, filename: string)
    requires i < |d.diffs|
    ensures var b := BackwardsV(d).diffs[i];
      && Plus(b.changes) == Minus(d.diffs[i].changes)
      && Minus(b.changes) == Plus(d.diffs[i].changes)
      && (Matches(b, filename) <==> Matches(d.diffs[i], filename))
  {
    ReversedCounts(d.diffs[i].changes);
  }

  /** Reversing a diff of insertions and removals twice gives it back. */
  lemma BackwardsTwice(d: DiffV)
    requires forall i, k :: 0 <= i < |d.diffs| && 0 <= k < |d.diffs[i].changes| ==>
      d.diffs[i].changes[k].action == "+" || d.diffs[i].changes[k].action == "-"
    ensures BackwardsV(BackwardsV(d)) == d
  {
    var b := BackwardsV(BackwardsV(d));
    forall i | 0 <= i < |d.diffs|
      ensures b.diffs[i] == d.diffs[i]
    {
      ReversedTwice(d.diffs[i].changes);
    }
  }
}
