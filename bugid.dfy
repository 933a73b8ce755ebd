/** `_extract_bug_id` of `mo_hg/hg_mozilla_org.py`: the bug number a
    changeset description names, found by the leftmost match of
    `[Bb](?:ug)?\s*([0-9]{5,7})`, written out character by character. */
module BugId {
  import opened Wrappers

  /** `\s` on a `str` pattern: the characters `str.isspace` accepts. */
  predicate IsSpace(c: char)
  {
    var n := c as int;
    n == 0x20 || 0x09 <= n <= 0x0d || 0x1c <= n <= 0x1f || n == 0x85 || n == 0xa0
    || n == 0x1680 || 0x2000 <= n <= 0x200a || n == 0x2028 || n == 0x2029
    || n == 0x202f || n == 0x205f || n == 0x3000
  }

  /** `[0-9]`. */
  predicate IsDigit(c: char)
  {
    '0' <= c <= '9'
  }

  /** Where a greedy `\s*` starting at `j` stops. */
  function SkipSpaces(s: string, j: nat): (k: nat)
    requires j <= |s|
    ensures j <= k <= |s|
    ensures forall p :: j <= p < k ==> IsSpace(s[p])
    ensures k == |s| || !IsSpace(s[k])
    decreases |s| - j
  {
    if j < |s| && IsSpace(s[j]) then SkipSpaces(s, j + 1) else j
  }

  /** How many digits a greedy `[0-9]{,n}` takes at `k`. */
  function Digits(s: string, k: nat, n: nat): (d: nat)
    requires k <= |s|
    ensures d <= n && k + d <= |s|
    ensures forall p :: k <= p < k + d ==> IsDigit(s[p])
    ensures d == n || k + d == |s| || !IsDigit(s[k + d])
    decreases n
  {
    if n > 0 && k < |s| && IsDigit(s[k]) then 1 + Digits(s, k + 1, n - 1) else 0
  }

  /** The group `[Bb](?:ug)?\s*([0-9]{5,7})` captures when matched at `i`.
      No backtracking can help a failed attempt: without `ug` the next
      character would be `u`, and a character given back by `\s*` is no
      digit. */
  function MatchAt(s: string, i: nat): (r: Option<string>)
    requires i <= |s|
    ensures r.Some? ==> 5 <= |r.value| <= 7 && forall p :: 0 <= p < |r.value| ==> IsDigit(r.value[p])
  {
    if i < |s| && (s[i] == 'B' || s[i] == 'b') then
      var j := if i + 3 <= |s| && s[i + 1] == 'u' && s[i + 2] == 'g' then i + 3 else i + 1;
      var k := SkipSpaces(s, j);
      var d := Digits(s, k, 7);
      if d >= 5 then Some(s[k..k + d]) else None
    else None
  }

  /** The first position from `i` on, below `n`, where `hit` holds. */
  function FirstWhere(hit: nat -> bool, i: nat, n: nat): (r: Option<nat>)
    ensures r.Some? ==> i <= r.value < n && hit(r.value)
    ensures forall q :: i <= q < n && (r.None? || q < r.value) ==> !hit(q)
    decreases n - i
  {
    if i >= n then None
    else if hit(i) then Some(i)
    else FirstWhere(hit, i + 1, n)
  }

  /** Where the leftmost match from `i` on starts, as `re.findall`
      scans. */
  function FirstMatch(s: string, i: nat): (r: Option<nat>)
    requires i <= |s|
    ensures r.Some? ==> i <= r.value < |s| && MatchAt(s, r.value).Some?
    ensures forall q :: i <= q < |s| && (r.None? || q < r.value) ==> MatchAt(s, q).None?
  {
    var hit := (q: nat) => q <= |s| && MatchAt(s, q).Some?;
    assert forall q: nat :: hit(q) == (q <= |s| && MatchAt(s, q).Some?);
    FirstWhere(hit, i, |s|)
  }

  /** `int(...)` of a run of ASCII digits. */
  function DigitsValue(d: string): (v: nat)
    requires forall p :: 0 <= p < |d| ==> IsDigit(d[p])
  {
    if |d| == 0 then 0
    else
      assert IsDigit(d[|d| - 1]);
      DigitsValue(d[..|d| - 1]) * 10 + (d[|d| - 1] as int - '0' as int)
  }

  /** `_extract_bug_id(description)`. */
  function ExtractBugId(description: Option<string>): Option<nat>
  {
    match description
    case None => None
    case Some(s) =>
      match FirstMatch(s, 0)
      case None => None
      case Some(p) => if MatchAt(s, p).Some? then Some(DigitsValue(MatchAt(s, p).value)) else None
  }

  function Pow10(n: nat): (r: nat)
    ensures r >= 1
  {
    if n == 0 then 1 else 10 * Pow10(n - 1)
  }

  /** A run of `n` digits is below `10^n`. */
  lemma {:induction false} DigitsValueBound(d: string)
    requires forall p :: 0 <= p < |d| ==> IsDigit(d[p])
    ensures DigitsValue(d) < Pow10(|d|)
  {
    if |d| > 0 {
      DigitsValueBound(d[..|d| - 1]);
    }
  }

  /** A bug id is the value of at most seven digits, so below ten
      million; no description gives none. */
  lemma ExtractBugIdBound(description: Option<string>)
    ensures description.None? ==> ExtractBugId(description).None?
    ensures ExtractBugId(description).Some? ==> ExtractBugId(description).value < 10000000
  {
    if ExtractBugId(description).Some? {
      var s := description.value;
      var d := MatchAt(s, FirstMatch(s, 0).value).value;
      DigitsValueBound(d);
      Pow10Monotone(|d|, 7);
    }
  }

  /** A description gives a bug id exactly when the pattern matches
      somewhere, and the id is the value of what the leftmost match
      captured. */
  lemma ExtractBugIdLeftmost(s: string)
    ensures ExtractBugId(Some(s)).Some? <==> exists p :: 0 <= p <= |s| && MatchAt(s, p).Some?
    ensures ExtractBugId(Some(s)).Some? ==>
      exists p :: 0 <= p <= |s| && MatchAt(s, p).Some? && (forall q :: 0 <= q < p ==> MatchAt(s, q).None?)
        && ExtractBugId(Some(s)).value == DigitsValue(MatchAt(s, p).value)
  {
  }

  lemma {:induction false} Pow10Monotone(a: nat, b: nat)
    requires a <= b
    ensures Pow10(a) <= Pow10(b)
    decreases b
  {
    if a < b {
      Pow10Monotone(a, b - 1);
    }
  }

  /** A bare `b` followed by five digits is enough. */
  lemma ExtractBugIdExample()
    ensures ExtractBugId(Some("b12345")) == Some(12345)
  {
    MatchAtExample();
    DigitsValueExample();
  }

  /** The match at the start of `b12345` captures its five digits. */
  lemma MatchAtExample()
    ensures MatchAt("b12345", 0) == Some("12345")
    ensures FirstMatch("b12345", 0) == Some(0)
  {
    var s := "b12345";
    assert SkipSpaces(s, 1) == 1;
    assert Digits(s, 6, 2) == 0;
    assert Digits(s, 1, 7) == 5;
    assert s[1..6] == "12345";
  }

  /** `int("12345")`. */
  lemma DigitsValueExample()
    ensures DigitsValue("12345") == 12345
  {
    assert "12345"[..4] == "1234" && "1234"[..3] == "123" && "123"[..2] == "12" && "12"[..1] == "1";
    assert "1"[..0] == "";
  }
}
