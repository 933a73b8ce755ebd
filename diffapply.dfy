/** The objects of `mo_hg/apply.py`: `Line`s whose numbers `apply_diff`
    moves in place as a diff inserts and removes lines of a `SourceFile`.
    Every method states its new state through the value functions of
    `DiffValues`. */
module DiffApply {
  import opened DiffValues

  /** One line of a file. */
  class Line {
    var line: int
    var isNewLine: bool
    var filename: string

    constructor (linenum: int, isNewLine: bool := false, filename: string := "")
      ensures Value() == LineV(linenum, isNewLine, filename)
    {
      this.line := linenum;
      this.isNewLine := isNewLine;
      this.filename := filename;
    }

    function Value(): LineV
      reads this
    {
      LineV(line, isNewLine, filename)
    }

    method MoveDown()
      modifies this
      ensures Value() == old(Value()).(line := old(line) + 1)
    {
      line := line + 1;
    }

    method MoveUp()
      modifies this
      ensures Value() == old(Value()).(line := old(line) - 1)
    {
      line := line - 1;
    }
  }

  /** The fields of each line object, in order. */
  function Values(ls: seq<Line>): (r: seq<LineV>)
    reads ls
    ensures |r| == |ls|
    ensures forall j :: 0 <= j < |ls| ==> r[j] == ls[j].Value()
  {
    seq(|ls|, j requires 0 <= j < |ls| reads ls => ls[j].Value())
  }

  /** No line object is listed twice. */
  predicate Distinct(ls: seq<Line>)
  {
    forall i, j :: 0 <= i < j < |ls| ==> ls[i] != ls[j]
  }

  /** The line objects that are new, in order. */
  function NewOf(ls: seq<Line>): (r: seq<Line>)
    reads ls
    ensures |r| <= |ls|
    ensures forall j :: 0 <= j < |r| ==> r[j] in ls && r[j].isNewLine
    ensures forall j :: 0 <= j < |ls| && ls[j].isNewLine ==> ls[j] in r
  {
    if |ls| == 0 then []
    else NewOf(ls[..|ls| - 1]) + (if ls[|ls| - 1].isNewLine then [ls[|ls| - 1]] else [])
  }

  /** `_format_line_objects`: number every unnumbered line by its position;
      the same objects come back in the same order. */
  method FormatLineObjects(lines: seq<Line>) returns (fmt: seq<Line>)
    requires Distinct(lines)
    modifies lines
    ensures fmt == lines
    ensures Values(lines) == Formatted(old(Values(lines)))
  {
    ghost var before := Values(lines);
    fmt := [];
    for i := 0 to |lines|
      invariant fmt == lines[..i]
      invariant forall j :: 0 <= j < i ==> lines[j].Value() == Formatted(before)[j]
      invariant forall j :: i <= j < |lines| ==> lines[j].Value() == before[j]
    {
      if lines[i].line == 0 {
        lines[i].line := i + 1;
      }
      fmt := fmt + [lines[i]];
    }
  }

  /** A file and the line objects it tracks. */
  class SourceFile {
    var filename: string
    var lines: seq<Line>

    /** Each line object is tracked once. */
    predicate Valid()
      reads this
    {
      Distinct(lines)
    }

    /** The file's name and the fields of its lines. */
    function View(): FileV
      reads this, lines
    {
      FileV(filename, Values(lines))
    }

    /** The name loses its leading slashes and the lines are numbered. */
    constructor (filename: string, lines: seq<Line>)
      requires Distinct(lines)
      modifies lines
      ensures Valid()
      ensures this.filename == LStrip(filename) && this.lines == lines
      ensures Values(lines) == Formatted(old(Values(lines)))
    {
      var fmt := FormatLineObjects(lines);
      this.filename := LStrip(filename);
      this.lines := fmt;
    }

    /** `reset_new_lines`. */
    method ResetNewLines()
      requires Valid()
      modifies lines
      ensures Values(lines) == Cleared(old(Values(lines)))
      ensures NewOf(lines) == []
    {
      ghost var before := Values(lines);
      for i := 0 to |lines|
        invariant forall j :: 0 <= j < i ==> lines[j].Value() == Cleared(before)[j]
        invariant forall j :: i <= j < |lines| ==> lines[j].Value() == before[j]
      {
        lines[i].isNewLine := false;
      }
      NoneNew(lines);
    }

    /** `set_filenames`: every line takes the file's name. */
    method SetFilenames()
      requires Valid()
      modifies lines
      ensures Values(lines) == Renamed(old(Values(lines)), filename)
    {
      ghost var before := Values(lines);
      for i := 0 to |lines|
        invariant forall j :: 0 <= j < i ==> lines[j].Value() == Renamed(before, filename)[j]
        invariant forall j :: i <= j < |lines| ==> lines[j].Value() == before[j]
      {
        lines[i].filename := filename;
      }
    }

    /** `get_new_lines`: the line objects marked new, and their fields are
        the new lines of the file's values. */
    function NewLines(): (r: seq<Line>)
      reads this, lines
      ensures forall j :: 0 <= j < |r| ==> r[j] in lines && r[j].isNewLine
      ensures forall j :: 0 <= j < |lines| && lines[j].isNewLine ==> lines[j] in r
      ensures Values(r) == NewLinesV(Values(lines))
    {
      NewValues(lines);
      NewOf(lines)
    }

    /** `add_one`: `x` goes in at slice index `x.line - 1` and the objects
        after it move down one. */
    method AddOne(x: Line)
      requires Valid() && x !in lines
      modifies this, lines
      ensures Valid() && filename == old(filename)
      ensures var k := Norm(old(x.line) - 1, |old(lines)|);
        lines == old(lines)[..k] + [x] + old(lines)[k..]
      ensures Values(lines) == AddOneV(old(Values(lines)), old(x.Value()))
    {
      ghost var before := Values(lines);
      ghost var objects := lines;
      var k := Norm(x.line - 1, |lines|);
      MoveFrom(lines, k, true);
      DistinctSplit(objects, k);
      lines := lines[..k] + [x] + lines[k..];
      DistinctInsert(objects[..k], x, objects[k..]);
      InsertValues(objects[..k], x, objects[k..], before, k);
    }

    /** `remove_one(n)`: keep the objects before slice index `n - 1` and
        those from slice index `n` on, the latter moved up one. For `n == 0`
        Python's negative slice keeps all but the last object before the
        whole list, so objects are then listed twice. */
    method RemoveOne(n: int)
      requires Valid()
      modifies this, lines
      ensures filename == old(filename)
      ensures var a, b := Norm(n - 1, |old(lines)|), Norm(n, |old(lines)|);
        && lines == old(lines)[..a] + old(lines)[b..]
        && Values(old(lines)) == old(Values(lines))[..b] + Shift(old(Values(lines))[b..], -1)
      ensures n != 0 ==> Valid() && Values(lines) == RemoveOneV(old(Values(lines)), n)
    {
      ghost var before := Values(lines);
      ghost var objects := lines;
      var a, b := Norm(n - 1, |lines|), Norm(n, |lines|);
      MoveFrom(lines, b, false);
      lines := lines[..a] + lines[b..];
      if n != 0 {
        RemoveValues(objects, n, before);
      }
    }
  }

  /** `move_down` (or `move_up`) on the objects from index `k` on; those
      before it keep their fields. */
  method MoveFrom(ls: seq<Line>, k: nat, down: bool)
    requires Distinct(ls) && k <= |ls|
    modifies ls
    ensures Values(ls) == old(Values(ls))[..k] + Shift(old(Values(ls))[k..], if down then 1 else -1)
  {
    ghost var before := Values(ls);
    ghost var d := if down then 1 else -1;
    for i := k to |ls|
      invariant forall j :: 0 <= j < k ==> ls[j].Value() == before[j]
      invariant forall j :: k <= j < i ==> ls[j].Value() == before[j].(line := before[j].line + d)
      invariant forall j :: i <= j < |ls| ==> ls[j].Value() == before[j]
    {
      if down {
        ls[i].MoveDown();
      } else {
        ls[i].MoveUp();
      }
    }
    ShiftAssemble(Values(ls), before, k, d);
  }

  lemma ShiftAssemble(after: seq<LineV>, before: seq<LineV>, k: nat, d: int)
    requires |after| == |before| && k <= |before|
    requires forall j :: 0 <= j < k ==> after[j] == before[j]
    requires forall j :: k <= j < |before| ==> after[j] == before[j].(line := before[j].line + d)
    ensures after == before[..k] + Shift(before[k..], d)
  {
    var want := before[..k] + Shift(before[k..], d);
    forall j | 0 <= j < |after|
      ensures after[j] == want[j]
    {
      if j >= k {
        assert want[j] == Shift(before[k..], d)[j - k];
      }
    }
  }

  /** The fields after `add_one`'s update, assembled. */
  lemma InsertValues(head: seq<Line>, x: Line, tail: seq<Line>, before: seq<LineV>, k: nat)
    requires k == Norm(x.line - 1, |before|)
    requires Values(head) == before[..k] && Values(tail) == Shift(before[k..], 1)
    ensures Values(head + [x] + tail) == AddOneV(before, x.Value())
  {
    ValuesConcat(head + [x], tail);
    ValuesConcat(head, [x]);
  }

  /** After `remove_one(n)` with `n != 0` the slices do not overlap: the
      objects stay distinct and their fields are `RemoveOneV`'s. */
  lemma RemoveValues(objects: seq<Line>, n: int, before: seq<LineV>)
    requires Distinct(objects) && |before| == |objects| && n != 0
    requires Values(objects) == before[..Norm(n, |objects|)] + Shift(before[Norm(n, |objects|)..], -1)
    ensures Norm(n - 1, |objects|) <= Norm(n, |objects|)
    ensures var a, b := Norm(n - 1, |objects|), Norm(n, |objects|);
      Distinct(objects[..a] + objects[b..]) && Values(objects[..a] + objects[b..]) == RemoveOneV(before, n)
  {
    var a, b := Norm(n - 1, |objects|), Norm(n, |objects|);
    DistinctDrop(objects, a, b);
    ValuesConcat(objects[..a], objects[b..]);
    ValuesPrefix(objects, a);
    ValuesSuffix(objects, b);
    var moved := Shift(before[b..], -1);
    assert (before[..b] + moved)[..a] == before[..a];
    assert (before[..b] + moved)[b..] == moved;
  }

  /** Dropping the objects between `a` and `b` keeps the rest distinct. */
  lemma DistinctDrop(objects: seq<Line>, a: nat, b: nat)
    requires Distinct(objects) && a <= b <= |objects|
    ensures Distinct(objects[..a] + objects[b..])
  {
    DistinctSplit(objects, a);
    DistinctSplit(objects[a..], b - a);
    assert objects[a..][b - a..] == objects[b..];
    DistinctJoin(objects[..a], objects[b..]);
  }

  lemma ValuesConcat(a: seq<Line>, b: seq<Line>)
    ensures Values(a + b) == Values(a) + Values(b)
  {
  }

  lemma DistinctSplit(ls: seq<Line>, k: nat)
    requires Distinct(ls) && k <= |ls|
    ensures Distinct(ls[..k]) && Distinct(ls[k..])
    ensures forall o :: o in ls[..k] ==> o !in ls[k..]
  {
    forall o | o in ls[..k]
      ensures o !in ls[k..]
    {
      var i :| 0 <= i < k && ls[i] == o;
      assert forall j :: 0 <= j < |ls| - k ==> ls[k..][j] == ls[k + j];
    }
  }

  lemma DistinctJoin(a: seq<Line>, b: seq<Line>)
    requires Distinct(a) && Distinct(b)
    requires forall o :: o in a ==> o !in b
    ensures Distinct(a + b)
  {
    forall i, j | 0 <= i < j < |a + b|
      ensures (a + b)[i] != (a + b)[j]
    {
      if i < |a| && j >= |a| {
        assert (a + b)[i] in a && (a + b)[j] in b;
      }
    }
  }

  lemma DistinctInsert(a: seq<Line>, x: Line, b: seq<Line>)
    requires Distinct(a) && Distinct(b) && x !in a && x !in b
    requires forall o :: o in a ==> o !in b
    ensures Distinct(a + [x] + b)
  {
    DistinctJoin(a, [x]);
    DistinctJoin(a + [x], b);
  }

  lemma {:induction false} NoneNew(ls: seq<Line>)
    requires forall j :: 0 <= j < |ls| ==> !ls[j].isNewLine
    ensures NewOf(ls) == []
  {
    if |ls| > 0 {
      NoneNew(ls[..|ls| - 1]);
    }
  }

  lemma {:induction false} NewValues(ls: seq<Line>)
    ensures Values(NewOf(ls)) == NewLinesV(Values(ls))
  {
    if |ls| > 0 {
      var n := |ls| - 1;
      var init := ls[..n];
      var tail := if ls[n].isNewLine then [ls[n]] else [];
      var vs := Values(ls);
      assert Values(tail) == if vs[n].isNew then [vs[n]] else [];
      calc {
        NewLinesV(vs);
        NewLinesV(vs[..n]) + (if vs[n].isNew then [vs[n]] else []);
        { ValuesPrefix(ls, n); }
        NewLinesV(Values(init)) + Values(tail);
        { NewValues(init); }
        Values(NewOf(init)) + Values(tail);
        { ValuesConcat(NewOf(init), tail); }
        Values(NewOf(ls));
      }
    }
  }

  lemma ValuesPrefix(ls: seq<Line>, k: nat)
    requires k <= |ls|
    ensures Values(ls[..k]) == Values(ls)[..k]
  {
  }

  lemma ValuesSuffix(ls: seq<Line>, k: nat)
    requires k <= |ls|
    ensures Values(ls[k..]) == Values(ls)[k..]
  {
  }

  /** The body of `apply_diff`'s `for change in f_diff` loop, over all
      changes of the entry. */
  method ApplyChangesTo(file: SourceFile, cs: seq<ChangeV>)
    requires file.Valid()
    requires forall k :: 0 <= k < |cs| ==> cs[k].line >= 0
    modifies file, file.lines
    ensures file.Valid() && file.filename == old(file.filename)
    ensures Values(file.lines) == ApplyChanges(old(Values(file.lines)), cs, file.filename)
    ensures forall l :: l in file.lines ==> l in old(file.lines) || fresh(l)
  {
    ghost var before := Values(file.lines);
    ghost var objects := set l | l in file.lines;
    for k := 0 to |cs|
      invariant file.Valid() && file.filename == old(file.filename)
      invariant Values(file.lines) == ApplyChanges(before, cs[..k], file.filename)
      invariant forall l :: l in file.lines ==> l in objects || fresh(l)
      modifies file, objects
    {
      ApplyChangeTo(file, cs[k]);
      assert cs[..k + 1][..k] == cs[..k];
    }
    assert cs[..|cs|] == cs;
  }

  /** One change: `"+"` inserts a new line object numbered `line + 1`,
      `"-"` removes line `line + 1`, any other action does nothing. */
  method ApplyChangeTo(file: SourceFile, c: ChangeV)
    requires file.Valid() && c.line >= 0
    modifies file, file.lines
    ensures file.Valid() && file.filename == old(file.filename)
    ensures Values(file.lines) == ApplyChange(old(Values(file.lines)), c, file.filename)
    ensures forall l :: l in file.lines ==> l in old(file.lines) || fresh(l)
  {
    if c.action == "+" {
      var x := new Line(c.line + 1, true, file.filename);
      file.AddOne(x);
    } else if c.action == "-" {
      file.RemoveOne(c.line + 1);
    }
  }

  /** `apply_diff`: whether the diff touched the file, and the file's new
      name and lines, as `ApplyDiffV` gives them. Lines that stay are the
      same objects; inserted ones are new. */
  method ApplyDiff(file: SourceFile, diff: DiffV) returns (changed: bool)
    requires file.Valid()
    requires forall i, k :: 0 <= i < |diff.diffs| && 0 <= k < |diff.diffs[i].changes| ==>
      diff.diffs[i].changes[k].line >= 0
    modifies file, file.lines
    ensures file.Valid()
    ensures (file.View(), changed) == ApplyDiffV(old(file.View()), diff)
    ensures forall l :: l in file.lines ==> l in old(file.lines) || fresh(l)
  {
    ghost var before := file.View();
    ApplyDiffExits(before, diff);
    changed := false;
    if diff.merge {
      return;
    }
    if LStrip(file.filename) == "dev/null" {
      file.lines := [];
      return;
    }
    // The `for f_proc in diff["diffs"]` loop skips entries that do not name
    // the file; the first that does is applied and ends the loop.
    var i := 0;
    while i < |diff.diffs| && !Matches(diff.diffs[i], file.filename)
      invariant i <= |diff.diffs|
      invariant forall j :: 0 <= j < i ==> !Matches(diff.diffs[j], file.filename)
    {
      i := i + 1;
    }
    if i == |diff.diffs| {
      ApplyDiffUntouched(before, diff);
      return;
    }
    ApplyDiffFirstEntry(before, diff, i);
    changed := true;
    ApplyEntryTo(file, diff.diffs[i]);
  }

  /** The body of `apply_diff`'s loop for the entry that names the file: a
      rename to `dev/null` empties it, another rename renames it, then the
      changes are applied. */
  method ApplyEntryTo(file: SourceFile, fd: FileDiffV)
    requires file.Valid()
    requires forall k :: 0 <= k < |fd.changes| ==> fd.changes[k].line >= 0
    modifies file, file.lines
    ensures file.Valid()
    ensures file.View() == ApplyEntry(old(file.View()), fd)
    ensures forall l :: l in file.lines ==> l in old(file.lines) || fresh(l)
  {
    var newName := LStrip(fd.newName);
    var oldName := LStrip(fd.oldName);
    if oldName != newName {
      if newName == "dev/null" {
        file.lines := [];
        return;
      }
      file.filename := newName;
    }
    ApplyChangesTo(file, fd.changes);
  }

  /** One change of a diff; `apply_diff_backwards` flips its action in
      place. */
  class Change {
    var action: string
    var line: int

    constructor (action: string, line: int)
      ensures Value() == ChangeV(action, line)
    {
      this.action := action;
      this.line := line;
    }

    function Value(): ChangeV
      reads this
    {
      ChangeV(action, line)
    }
  }

  /** A diff whose changes are objects. */
  datatype FileDiff = FileDiff(oldName: string, newName: string, changes: seq<Change>)
  datatype Diff = Diff(diffs: seq<FileDiff>, merge: bool)

  function ChangeValues(cs: seq<Change>): (r: seq<ChangeV>)
    reads cs
    ensures |r| == |cs|
    ensures forall k :: 0 <= k < |cs| ==> r[k] == cs[k].Value()
  {
    seq(|cs|, k requires 0 <= k < |cs| reads cs => cs[k].Value())
  }

  /** Every change object of a diff. */
  function ChangeObjects(d: Diff): set<Change>
  {
    set i, k | 0 <= i < |d.diffs| && 0 <= k < |d.diffs[i].changes| :: d.diffs[i].changes[k]
  }

  /** The diff's values. */
  function DiffValue(d: Diff): (r: DiffV)
    reads ChangeObjects(d)
    ensures |r.diffs| == |d.diffs| && r.merge == d.merge
    ensures forall i :: 0 <= i < |d.diffs| ==>
      r.diffs[i] == FileDiffV(d.diffs[i].oldName, d.diffs[i].newName, ChangeValues(d.diffs[i].changes))
  {
    DiffV(seq(|d.diffs|, i requires 0 <= i < |d.diffs| reads ChangeObjects(d) =>
      FileDiffV(d.diffs[i].oldName, d.diffs[i].newName, ChangeValues(d.diffs[i].changes))), d.merge)
  }

  /** No change object is listed twice, within an entry or across entries. */
  predicate DistinctChanges(d: Diff)
  {
    forall i, k, j, l :: 0 <= i < |d.diffs| && 0 <= k < |d.diffs[i].changes|
      && 0 <= j < |d.diffs| && 0 <= l < |d.diffs[j].changes| && (i != j || k != l)
      ==> d.diffs[i].changes[k] != d.diffs[j].changes[l]
  }

  /** The loop over one entry's changes: flips each insertion and removal in
      place and builds the reversed entry (prepending, which is
      `new_changes[::-1]` built directly). `v` holds the entry's values. */
  method BackwardsEntry(fd: FileDiff, ghost v: FileDiffV) returns (entry: FileDiffV)
    requires forall k, l :: 0 <= k < l < |fd.changes| ==> fd.changes[k] != fd.changes[l]
    requires v.oldName == fd.oldName && v.newName == fd.newName && |v.changes| == |fd.changes|
    requires forall k :: 0 <= k < |fd.changes| ==> fd.changes[k].Value() == v.changes[k] && v.changes[k].line >= 0
    modifies fd.changes
    ensures entry == FileDiffV(v.newName, v.oldName, Reversed(v.changes))
    ensures forall k :: 0 <= k < |entry.changes| ==> entry.changes[k].line >= 0
    ensures forall k :: 0 <= k < |fd.changes| ==> fd.changes[k].Value() == Flip(v.changes[k])
  {
    var cs := fd.changes;
    var rev: seq<ChangeV> := [];
    for k := 0 to |cs|
      invariant rev == Reversed(v.changes[..k])
      invariant forall l :: 0 <= l < k ==> cs[l].Value() == Flip(v.changes[l])
      invariant forall l :: k <= l < |cs| ==> cs[l].Value() == v.changes[l]
    {
      var c := cs[k];
      assert v.changes[..k + 1][..k] == v.changes[..k];
      if c.action == "+" {
        c.action := "-";
        rev := [c.Value()] + rev;
      } else if c.action == "-" {
        c.action := "+";
        rev := [c.Value()] + rev;
      }
    }
    assert v.changes[..|cs|] == v.changes;
    ReversedLines(v.changes);
    entry := FileDiffV(fd.newName, fd.oldName, rev);
  }

  /** `apply_diff_backwards`: applies the reversed diff. The caller's change
      objects are left flipped (`BackwardsDiffs`). */
  method ApplyDiffBackwards(file: SourceFile, diff: Diff) returns (changed: bool)
    requires file.Valid()
    requires DistinctChanges(diff)
    requires forall i, k :: 0 <= i < |diff.diffs| && 0 <= k < |diff.diffs[i].changes| ==>
      diff.diffs[i].changes[k].line >= 0
    modifies file, file.lines, ChangeObjects(diff)
    ensures file.Valid()
    ensures (file.View(), changed) == ApplyDiffV(old(file.View()), BackwardsV(old(DiffValue(diff))))
    ensures forall i, k :: 0 <= i < |diff.diffs| && 0 <= k < |diff.diffs[i].changes| ==>
      diff.diffs[i].changes[k].Value() == Flip(old(diff.diffs[i].changes[k].Value()))
  {
    var entries := BackwardsDiffs(diff);
    changed := ApplyDiff(file, DiffV(entries, diff.merge));
  }

  /** The loop of `apply_diff_backwards` over the entries: the reversed
      entries, with every change object flipped in place. */
  method BackwardsDiffs(diff: Diff) returns (entries: seq<FileDiffV>)
    requires DistinctChanges(diff)
    requires forall i, k :: 0 <= i < |diff.diffs| && 0 <= k < |diff.diffs[i].changes| ==>
      diff.diffs[i].changes[k].line >= 0
    modifies ChangeObjects(diff)
    ensures entries == BackwardsEntries(old(DiffValue(diff)).diffs)
    ensures forall i, k :: 0 <= i < |entries| && 0 <= k < |entries[i].changes| ==> entries[i].changes[k].line >= 0
    ensures forall i, k :: 0 <= i < |diff.diffs| && 0 <= k < |diff.diffs[i].changes| ==>
      diff.diffs[i].changes[k].Value() == Flip(old(diff.diffs[i].changes[k].Value()))
  {
    ghost var before := DiffValue(diff).diffs;
    assert forall j, l :: 0 <= j < |before| && 0 <= l < |before[j].changes| ==> before[j].changes[l].line >= 0;
    entries := [];
    for i := 0 to |diff.diffs|
      invariant entries == BackwardsEntries(before[..i])
      invariant forall j, l :: 0 <= j < i && 0 <= l < |diff.diffs[j].changes| ==>
        diff.diffs[j].changes[l].Value() == Flip(before[j].changes[l])
      invariant forall j, l :: i <= j < |diff.diffs| && 0 <= l < |diff.diffs[j].changes| ==>
        diff.diffs[j].changes[l].Value() == before[j].changes[l]
      invariant forall j, l :: 0 <= j < |entries| && 0 <= l < |entries[j].changes| ==> entries[j].changes[l].line >= 0
    {
      entries := BackwardsStep(diff, i, before, entries);
    }
    assert before[..|diff.diffs|] == before;
  }

  /** One round of the loop of `BackwardsDiffs`: reverses entry `i` and
      leaves every other entry's changes as they were. */
  method BackwardsStep(diff: Diff, i: nat, ghost before: seq<FileDiffV>, entries: seq<FileDiffV>)
    returns (next: seq<FileDiffV>)
    requires DistinctChanges(diff) && i < |diff.diffs| == |before|
    requires forall j :: 0 <= j < |before| ==>
      before[j].oldName == diff.diffs[j].oldName && before[j].newName == diff.diffs[j].newName &&
      |before[j].changes| == |diff.diffs[j].changes|
    requires forall j, l :: 0 <= j < |before| && 0 <= l < |before[j].changes| ==> before[j].changes[l].line >= 0
    requires entries == BackwardsEntries(before[..i])
    requires forall j, l :: 0 <= j < |entries| && 0 <= l < |entries[j].changes| ==> entries[j].changes[l].line >= 0
    requires forall l :: 0 <= l < |diff.diffs[i].changes| ==> diff.diffs[i].changes[l].Value() == before[i].changes[l]
    modifies diff.diffs[i].changes
    ensures next == BackwardsEntries(before[..i + 1])
    ensures forall j, l :: 0 <= j < |next| && 0 <= l < |next[j].changes| ==> next[j].changes[l].line >= 0
    ensures forall l :: 0 <= l < |diff.diffs[i].changes| ==> diff.diffs[i].changes[l].Value() == Flip(before[i].changes[l])
    ensures forall j, l :: 0 <= j < |diff.diffs| && j != i && 0 <= l < |diff.diffs[j].changes| ==>
      diff.diffs[j].changes[l].Value() == old(diff.diffs[j].changes[l].Value())
  {
    EntryDistinct(diff, i);
    var entry := BackwardsEntry(diff.diffs[i], before[i]);
    assert before[..i + 1] == before[..i] + [before[i]];
    next := entries + [entry];
  }

  /** The changes of entry `i` are distinct, and no other entry lists one of
      them. */
  lemma EntryDistinct(d: Diff, i: nat)
    requires DistinctChanges(d) && i < |d.diffs|
    ensures forall k, l :: 0 <= k < l < |d.diffs[i].changes| ==> d.diffs[i].changes[k] != d.diffs[i].changes[l]
    ensures forall j, l :: 0 <= j < |d.diffs| && j != i && 0 <= l < |d.diffs[j].changes| ==>
      d.diffs[j].changes[l] !in d.diffs[i].changes
  {
  }
}
