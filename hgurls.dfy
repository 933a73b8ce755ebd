/** The string helpers of `mo_hg/hg_mozilla_org.py`: `_trim`, the fallback
    rewrite of hg.mozilla.org push URLs tried by `_get_and_retry`, and the
    retry chain itself with the HTTP request as a parameter. Python's
    `str.split`, `str.join`, `str.replace` and list slicing are written
    out. */
module HgUrls {
  import opened Wrappers
  import opened Strings

  // ----- substrings -----

  /** `m` occurs in `s` starting at index `i`. */
  predicate OccursAt(s: string, m: string, i: int)
  {
    0 <= i && i + |m| <= |s| && s[i..i + |m|] == m
  }

  /** `m in s`. */
  predicate Contains(s: string, m: string)
  {
    exists i :: 0 <= i <= |s| && OccursAt(s, m, i)
  }

  /** `s.split(m)[0]`: the text before the first occurrence of `m`, or all
      of `s` when `m` does not occur. */
  function Before(s: string, m: string): (r: string)
    requires |m| > 0
    decreases |s|
  {
    if |s| < |m| then s
    else if s[..|m|] == m then []
    else [s[0]] + Before(s[1..], m)
  }

  /** What `Before` returns: a prefix of `s` holding no occurrence of `m`,
      which is `s` itself exactly when `m` does not occur in `s`. */
  lemma {:induction false} BeforeSpec(s: string, m: string)
    requires |m| > 0
    ensures var r := Before(s, m);
      && r <= s
      && !Contains(r, m)
      && (r == s <==> !Contains(s, m))
    decreases |s|
  {
    var r := Before(s, m);
    if |s| < |m| {
      assert forall i :: !OccursAt(s, m, i);
    } else if s[..|m|] == m {
      assert OccursAt(s, m, 0);
      assert forall i :: !OccursAt(r, m, i);
    } else {
      var t := s[1..];
      BeforeSpec(t, m);
      var rt := Before(t, m);
      assert r[1..] == rt;
      forall i | OccursAt(r, m, i)
        ensures false
      {
        if i > 0 {
          OccursTail(r, m, i);
        }
      }
      if Contains(s, m) {
        var i :| 0 <= i <= |s| && OccursAt(s, m, i);
        assert i != 0;
        OccursTail(s, m, i);
      }
      if Contains(t, m) {
        var i :| 0 <= i <= |t| && OccursAt(t, m, i);
        OccursTail(s, m, i + 1);
      }
    }
  }

  /** An occurrence after the first character is an occurrence in the
      tail, one place earlier. */
  lemma OccursTail(s: string, m: string, i: int)
    requires |s| > 0 && i >= 1
    ensures OccursAt(s, m, i) <==> OccursAt(s[1..], m, i - 1)
  {
    if i + |m| <= |s| {
      assert s[1..][i - 1..i - 1 + |m|] == s[i..i + |m|];
    }
  }

  /** A prefix of a string holds no occurrence the string does not hold. */
  lemma PrefixContains(p: string, s: string, m: string)
    requires p <= s && Contains(p, m)
    ensures Contains(s, m)
  {
    var i :| 0 <= i <= |p| && OccursAt(p, m, i);
    assert s[i..i + |m|] == p[i..i + |m|];
    assert OccursAt(s, m, i);
  }

  // ----- _trim -----

  const JsonPushes := "/json-pushes?"
  const JsonInfo := "/json-info?"
  const JsonRev := "/json-rev/"

  /** `_trim(url)`: the repository URL in front of a `json-pushes`,
      `json-info` or `json-rev` request. */
  function Trim(url: string): string
  {
    Before(Before(Before(url, JsonPushes), JsonInfo), JsonRev)
  }

  /** The trimmed URL is a prefix of the URL that holds none of the three
      request markers, and is the URL itself when it holds none of them. */
  lemma TrimSpec(url: string)
    ensures Trim(url) <= url
    ensures !Contains(Trim(url), JsonPushes) && !Contains(Trim(url), JsonInfo) && !Contains(Trim(url), JsonRev)
    ensures (!Contains(url, JsonPushes) && !Contains(url, JsonInfo) && !Contains(url, JsonRev)) ==> Trim(url) == url
  {
    var a := Before(url, JsonPushes);
    var b := Before(a, JsonInfo);
    var c := Before(b, JsonRev);
    BeforeSpec(url, JsonPushes);
    BeforeSpec(a, JsonInfo);
    BeforeSpec(b, JsonRev);
    if Contains(c, JsonPushes) {
      PrefixContains(c, b, JsonPushes);
      PrefixContains(b, a, JsonPushes);
    }
    if Contains(c, JsonInfo) {
      PrefixContains(c, b, JsonInfo);
    }
  }

  /** Trimming twice is trimming once. */
  lemma TrimIdempotent(url: string)
    ensures Trim(Trim(url)) == Trim(url)
  {
    TrimSpec(url);
    TrimSpec(Trim(url));
  }

  // ----- split and join on one character -----

  /** `s.split(c)`: never empty; an empty piece for every separator at an
      end or next to another separator. */
  function Split(s: string, c: char): (r: seq<string>)
    ensures |r| >= 1
  {
    if |s| == 0 then [""]
    else
      var init := Split(s[..|s| - 1], c);
      if s[|s| - 1] == c then init + [""]
      else init[..|init| - 1] + [init[|init| - 1] + [s[|s| - 1]]]
  }

  /** No piece of a split holds the separator. */
  lemma {:induction false} SplitPieces(s: string, c: char)
    ensures forall k :: 0 <= k < |Split(s, c)| ==> c !in Split(s, c)[k]
  {
    if |s| > 0 {
      SplitPieces(s[..|s| - 1], c);
    }
  }

  /** Joining the pieces gives back the string. */
  lemma {:induction false} JoinSplit(s: string, c: char)
    ensures Join(Split(s, c), [c]) == s
  {
    if |s| > 0 {
      var t := s[..|s| - 1];
      var ch := s[|s| - 1];
      var init := Split(t, c);
      JoinSplit(t, c);
      assert s == t + [ch];
      if ch == c {
        JoinSnoc(init, "", c);
      } else {
        var n := |init| - 1;
        var front := init[..n];
        assert init == front + [init[n]];
        assert Split(s, c) == front + [init[n] + [ch]];
        JoinLastGrows(front, init[n], ch, c);
      }
    }
  }

  /** Extending the last part extends the joined string. */
  lemma JoinLastGrows(parts: seq<string>, x: string, ch: char, c: char)
    ensures Join(parts + [x + [ch]], [c]) == Join(parts + [x], [c]) + [ch]
  {
    JoinSnoc(parts, x, c);
    JoinSnoc(parts, x + [ch], c);
  }

  lemma JoinSnoc(parts: seq<string>, x: string, c: char)
    ensures Join(parts + [x], [c]) == if |parts| == 0 then x else Join(parts, [c]) + [c] + x
  {
    assert (parts + [x])[..|parts|] == parts;
  }

  /** Splitting `a + c + x`, where `x` holds no separator, adds `x` as the
      last piece. */
  lemma {:induction false} SplitSnoc(a: string, c: char, x: string)
    requires c !in x
    ensures Split(a + [c] + x, c) == Split(a, c) + [x]
    decreases |x|
  {
    if |x| == 0 {
      assert a + [c] + x == a + [c];
      assert (a + [c])[..|a|] == a;
    } else {
      var y := x[..|x| - 1];
      var s := a + [c] + x;
      assert s[..|s| - 1] == a + [c] + y;
      assert s[|s| - 1] == x[|x| - 1];
      SplitSnoc(a, c, y);
      assert x == y + [x[|x| - 1]];
    }
  }

  /** Splitting a join gives back the pieces when none holds the
      separator. */
  lemma {:induction false} SplitJoin(parts: seq<string>, c: char)
    requires |parts| >= 1
    requires forall k :: 0 <= k < |parts| ==> c !in parts[k]
    ensures Split(Join(parts, [c]), c) == parts
  {
    if |parts| == 1 {
      SplitNoSeparator(parts[0], c);
    } else {
      var init := parts[..|parts| - 1];
      SplitJoin(init, c);
      SplitSnoc(Join(init, [c]), c, parts[|parts| - 1]);
      assert parts == init + [parts[|parts| - 1]];
    }
  }

  /** A string without the separator splits into itself. */
  lemma {:induction false} SplitNoSeparator(s: string, c: char)
    requires c !in s
    ensures Split(s, c) == [s]
  {
    if |s| > 0 {
      SplitNoSeparator(s[..|s| - 1], c);
      assert s == s[..|s| - 1] + [s[|s| - 1]];
    }
  }

  /** `p[k:]`: Python slices past the end are empty. */
  function Drop(p: seq<string>, k: nat): (r: seq<string>)
    ensures |r| == if k <= |p| then |p| - k else 0
  {
    if k <= |p| then p[k..] else []
  }

  // ----- the URL rewrite in _get_and_retry -----

  /** The path rewrite `_get_and_retry` falls back on once both requests
      failed, on the segments of a URL with more than three: locale
      repositories map to their main repository, and the `autoland`
      repository under a group maps to `try`; `None` when no rule
      matches. */
  function NextPath(path: seq<string>): Option<seq<string>>
    requires |path| > 3
  {
    if path[3] == "l10n-central" then Some(path[..3] + ["mozilla-central"] + Drop(path, 5))
    else if |path| > 5 && path[5] == "mozilla-aurora" then Some(path[..4] + ["mozilla-aurora"] + Drop(path, 7))
    else if |path| > 5 && path[5] == "mozilla-beta" then Some(path[..4] + ["mozilla-beta"] + Drop(path, 7))
    else if |path| > 7 && path[5] == "mozilla-release" then Some(path[..4] + ["mozilla-release"] + Drop(path, 7))
    else if |path| > 5 && path[4] == "autoland" then Some(path[..3] + ["try"] + path[5..])
    else None
  }

  /** The rewrite on the URL: `url.split("/")`, the rule, `"/".join`. A
      path of at most three segments fails on `path[3]`; a path no rule
      matches fails. */
  function Rewrite(url: string): Result<string>
  {
    var path := Split(url, '/');
    if |path| <= 3 then Failure("list index out of range")
    else match NextPath(path)
      case Some(next) => Success(Join(next, "/"))
      case None => Failure("Tried " + url + " twice.  Both failed.")
  }

  /** The rewrite fails exactly when the URL has at most three segments or
      no rule matches its segments. */
  lemma RewriteFails(url: string)
    ensures Rewrite(url).Failure? <==> |Split(url, '/')| <= 3 || NextPath(Split(url, '/')).None?
    ensures Rewrite(url).Failure? && |Split(url, '/')| > 3 ==>
      Rewrite(url).error == "Tried " + url + " twice.  Both failed."
  {
  }

  /** Every piece is free of `/`. */
  predicate Segments(parts: seq<string>)
  {
    forall k :: 0 <= k < |parts| ==> '/' !in parts[k]
  }

  /** On a URL built from segments the rewrite works on those segments. */
  lemma RewriteJoin(parts: seq<string>)
    requires |parts| > 3 && Segments(parts)
    ensures Rewrite(Join(parts, "/")) == match NextPath(parts)
      case Some(next) => Success(Join(next, "/"))
      case None => Failure("Tried " + Join(parts, "/") + " twice.  Both failed.")
  {
    SplitJoin(parts, '/');
  }

  /** `https://host/l10n-central/<locale>/<tail>` becomes
      `https://host/mozilla-central/<tail>`, whatever the later segments
      say: this rule is tried first. */
  lemma RewriteL10nCentral(scheme: string, host: string, locale: string, tail: seq<string>)
    ensures NextPath([scheme, "", host, "l10n-central", locale] + tail)
      == Some([scheme, "", host, "mozilla-central"] + tail)
  {
    var parts := [scheme, "", host, "l10n-central", locale] + tail;
    assert parts[..3] + ["mozilla-central"] + Drop(parts, 5) == [scheme, "", host, "mozilla-central"] + tail;
  }

  /** The three release channels: `<host>/releases/l10n/<channel>/<locale>/<tail>`
      becomes `<host>/releases/<channel>/<tail>`, the tail kept as it was.
      `mozilla-release` is only rewritten when the path has more than seven
      segments, that is when the tail is not empty; otherwise no rule
      matches. */
  lemma RewriteReleases(scheme: string, host: string, group: string, l10n: string, channel: string, locale: string, tail: seq<string>)
    requires group != "l10n-central" && l10n != "autoland"
    requires channel == "mozilla-aurora" || channel == "mozilla-beta" || channel == "mozilla-release"
    ensures NextPath([scheme, "", host, group, l10n, channel, locale] + tail) ==
      if channel == "mozilla-release" && |tail| == 0 then None
      else Some([scheme, "", host, group, channel] + tail)
  {
    var parts := [scheme, "", host, group, l10n, channel, locale] + tail;
    assert parts[..4] + [channel] + Drop(parts, 7) == [scheme, "", host, group, channel] + tail;
  }

  /** `<host>/<group>/autoland/<tail>` becomes `<host>/try/<tail>` when no
      earlier rule applies (the tail must not be empty). */
  lemma RewriteAutoland(scheme: string, host: string, group: string, tail: seq<string>)
    requires group != "l10n-central" && |tail| >= 1
    requires tail[0] != "mozilla-aurora" && tail[0] != "mozilla-beta" && (|tail| <= 2 || tail[0] != "mozilla-release")
    ensures NextPath([scheme, "", host, group, "autoland"] + tail) == Some([scheme, "", host, "try"] + tail)
  {
    var parts := [scheme, "", host, group, "autoland"] + tail;
    assert parts[5] == tail[0];
    assert parts[..3] + ["try"] + parts[5..] == [scheme, "", host, "try"] + tail;
  }

  /** How far a URL is from running out of rules: its segment count, plus
      one while segment 3 still says `l10n-central`. */
  function Distance(url: string): nat
  {
    var path := Split(url, '/');
    |path| + (if |path| > 3 && path[3] == "l10n-central" then 1 else 0)
  }

  /** A rewritten path keeps segments free of `/` and is closer. */
  lemma NextPathCloser(path: seq<string>)
    requires |path| > 3 && Segments(path) && NextPath(path).Some?
    ensures var next := NextPath(path).value;
      && |next| > 3 && Segments(next)
      && |next| + (if next[3] == "l10n-central" then 1 else 0) < |path| + (if path[3] == "l10n-central" then 1 else 0)
  {
    var next := NextPath(path).value;
    var releases := path[3] != "l10n-central" && |path| > 5
      && (path[5] == "mozilla-aurora" || path[5] == "mozilla-beta" || (|path| > 7 && path[5] == "mozilla-release"));
    forall k | 0 <= k < |next|
      ensures '/' !in next[k]
    {
      if releases {
        if k < 4 {
          assert next[k] == path[k];
        } else if k > 4 {
          assert next[k] == path[k + 2];
        }
      } else if k < 3 {
        assert next[k] == path[k];
      } else if k > 3 {
        assert next[k] == path[k + 1];
      }
    }
  }

  /** Every rewrite brings the URL closer, so the chain of retries ends. */
  lemma RewriteCloser(url: string)
    requires Rewrite(url).Success?
    ensures Distance(Rewrite(url).value) < Distance(url)
  {
    var path := Split(url, '/');
    SplitPieces(url, '/');
    NextPathCloser(path);
    SplitJoin(NextPath(path).value, '/');
  }

  // ----- _get_and_retry -----

  /** The outcome of one `_get_url` request. */
  datatype Attempt = Got(data: string) | UnknownPush | Failed

  /** `s.replace(pat, rep)`: every non-overlapping occurrence, left to
      right. */
  function ReplaceAll(s: string, pat: string, rep: string): string
    requires |pat| > 0
    decreases |s|
  {
    if |s| < |pat| then s
    else if s[..|pat|] == pat then rep + ReplaceAll(s[|pat|..], pat, rep)
    else [s[0]] + ReplaceAll(s[1..], pat, rep)
  }

  /** A string without the pattern is left as it is. */
  lemma {:induction false} ReplaceAbsent(s: string, pat: string, rep: string)
    requires |pat| > 0 && !Contains(s, pat)
    ensures ReplaceAll(s, pat, rep) == s
    decreases |s|
  {
    if |s| >= |pat| {
      assert !OccursAt(s, pat, 0);
      var t := s[1..];
      if Contains(t, pat) {
        var i :| 0 <= i <= |t| && OccursAt(t, pat, i);
        assert s[i + 1..i + 1 + |pat|] == t[i..i + |pat|];
        assert OccursAt(s, pat, i + 1);
      }
      ReplaceAbsent(t, pat, rep);
    }
  }

  /** `_get_and_retry(url)`: the request, then the same request over plain
      HTTP, then the rewritten URL, recursively. An unknown-push answer to
      the first request ends the chain; every error of the second request
      is ignored. `get` stands for `_get_url`. */
  function GetAndRetry(url: string, get: string -> Attempt): (r: Result<string>)
    decreases Distance(url)
  {
    match get(url)
    case Got(data) => Success(data)
    case UnknownPush => Failure("Tried " + url + " and failed")
    case Failed =>
      match get(ReplaceAll(url, "https://", "http://"))
      case Got(data) => Success(data)
      case _ =>
        match Rewrite(url)
        case Failure(e) => Failure(e)
        case Success(next) =>
          RewriteCloser(url);
          GetAndRetry(next, get)
  }

  /** A success carries what some request answered; a first answer is
      taken as it is, an unknown push fails at once, and when both requests
      failed and no rule applies the chain fails with the rewrite's
      error. */
  lemma {:induction false} GetAndRetrySound(url: string, get: string -> Attempt)
    ensures get(url).Got? ==> GetAndRetry(url, get) == Success(get(url).data)
    ensures get(url).UnknownPush? ==> GetAndRetry(url, get) == Failure("Tried " + url + " and failed")
    ensures get(url).Failed? && !get(ReplaceAll(url, "https://", "http://")).Got? && Rewrite(url).Failure? ==>
      GetAndRetry(url, get) == Failure(Rewrite(url).error)
    ensures GetAndRetry(url, get).Success? ==> exists u :: get(u) == Got(GetAndRetry(url, get).value)
    decreases Distance(url)
  {
    if get(url).Failed? && !get(ReplaceAll(url, "https://", "http://")).Got? && Rewrite(url).Success? {
      RewriteCloser(url);
      GetAndRetrySound(Rewrite(url).value, get);
    }
  }
}
