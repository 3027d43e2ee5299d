/** The colon path splitter explodePath (src/AST/ValueTrait.php, and its older
    identical copy in src/AST/TValue.php): a variable's key `a:b` names the
    entry `b` of the entry `a`, and `\:` stands for a colon inside a key. */
module Paths {
  import opened Php

  /** `mb_substr($s, 0, -1)`: everything but the last character. */
  function DropLast(s: string): (r: string)
    ensures |s| > 0 ==> r == s[..|s| - 1]
    ensures |s| == 0 ==> r == ""
  {
    if |s| == 0 then "" else s[..|s| - 1]
  }

  /** The symbol the loop reads at position k: one character, or "" at the
      position past the end. */
  function SymbolAt(path: string, k: nat): (r: string)
    ensures k < |path| ==> r == [path[k]]
    ensures k >= |path| ==> r == ""
  {
    if k < |path| then [path[k]] else ""
  }

  predicate ColonAt(path: string, k: nat)
  {
    k < |path| && path[k] == ':'
  }

  /** Whether the symbol before position k is a backslash. Before the first
      position `mb_substr($path, -1, 1)` reads the LAST character. */
  predicate EscapedAt(path: string, k: nat)
    requires k <= |path|
  {
    if k > 0 then path[k - 1] == '\\' else |path| > 0 && path[|path| - 1] == '\\'
  }

  /** The two `mb_substr` reads of one pass, in the loop's own terms. */
  lemma CharAtReads(path: string, k: nat)
    requires k <= |path|
    ensures CharAt(path, k) == SymbolAt(path, k)
    ensures CharAt(path, k) == ":" <==> ColonAt(path, k)
    ensures CharAt(path, k - 1) == "\\" <==> EscapedAt(path, k)
  {
    if k < |path| {
      assert CharAt(path, k) == [path[k]];
    }
    if k > 0 {
      assert CharAt(path, k - 1) == [path[k - 1]];
    } else if |path| > 0 {
      assert CharAt(path, -1) == [path[|path| - 1]];
    } else {
      assert CharAt(path, -1) == "";
    }
  }

  /** One pass of explodePath's loop at position k (0 <= k <= |path|).
      `pending` says that no segment has been started since the last
      separator: PHP's `!isset($paths[$index])`. */
  function ExplodeStep(path: string, k: nat, paths: seq<string>, pending: bool): (r: (seq<string>, bool))
    requires k <= |path|
    requires pending || |paths| > 0
    ensures r.1 || |r.0| > 0
  {
    if ColonAt(path, k) && !EscapedAt(path, k) then (paths, true)
    else
      var started := if pending then paths + [""] else paths;
      var last := started[|started| - 1];
      var kept := if ColonAt(path, k) then DropLast(last) else last;
      (started[..|started| - 1] + [kept + SymbolAt(path, k)], false)
  }

  /** The state of explodePath's loop once it has passed positions 0 .. k-1:
      the segments so far and whether a new one is pending. */
  function ExplodeUpTo(path: string, k: nat): (r: (seq<string>, bool))
    requires k <= |path| + 1
    ensures r.1 || |r.0| > 0
  {
    if k == 0 then ([], true)
    else
      var prior := ExplodeUpTo(path, k - 1);
      ExplodeStep(path, k - 1, prior.0, prior.1)
  }

  /** The segments explodePath returns, in order (PHP numbers them by separator
      count, leaving gaps where empty segments were skipped; callers only shift
      and count them, so the gaps are unobservable). */
  function PathSegments(path: string): (r: seq<string>)
    ensures |r| >= 1
  {
    ExplodeUpTo(path, |path| + 1).0
  }

  /** One pass of explodePath's loop body at position `current`, reading
      the two characters with `mb_substr` as the PHP code does. */
  method ExplodePass(path: string, current: nat, paths: seq<string>, pending: bool)
    returns (paths': seq<string>, pending': bool)
    requires current <= |path|
    requires pending || |paths| > 0
    ensures (paths', pending') == ExplodeStep(path, current, paths, pending)
  {
    var symbol := CharAt(path, current);
    var prev := CharAt(path, current - 1);
    CharAtReads(path, current);
    paths', pending' := paths, pending;
    if symbol == ":" && prev != "\\" {
      pending' := true;
    } else {
      if pending' {
        paths' := paths' + [""];
        pending' := false;
      }
      var last := paths'[|paths'| - 1];
      if symbol == ":" && prev == "\\" {
        last := DropLast(last);
      }
      paths' := paths'[..|paths'| - 1] + [last + symbol];
    }
  }

  /** explodePath as written: a do-while over positions 0 .. |path|. */
  method ExplodePath(path: string) returns (paths: seq<string>)
    ensures paths == PathSegments(path)
    ensures |paths| >= 1
  {
    var current := -1;
    var pending := true;
    paths := [];
    var again := true;
    while again
      invariant -1 <= current <= |path|
      invariant again <==> current < |path|
      invariant paths == ExplodeUpTo(path, current + 1).0
      invariant pending == ExplodeUpTo(path, current + 1).1
      decreases |path| - current
    {
      current := current + 1;
      paths, pending := ExplodePass(path, current, paths, pending);
      again := current < |path|;
    }
  }

  /** The pieces of `pieces` that are not empty, in order. */
  function NonEmpty(pieces: seq<string>): (r: seq<string>)
    ensures |r| <= |pieces|
  {
    if pieces == [] then []
    else NonEmpty(pieces[..|pieces| - 1]) + (if pieces[|pieces| - 1] == "" then [] else [pieces[|pieces| - 1]])
  }

  /** explode(':') with every empty piece but the last dropped. */
  function DropEmptyButLast(pieces: seq<string>): seq<string>
    requires |pieces| >= 1
  {
    NonEmpty(pieces[..|pieces| - 1]) + [pieces[|pieces| - 1]]
  }

  predicate NoBackslash(path: string)
  {
    forall i :: 0 <= i < |path| ==> path[i] != '\\'
  }

  /** A key: no separator and no backslash. */
  predicate PlainKey(s: string)
  {
    forall i :: 0 <= i < |s| ==> s[i] != ':' && s[i] != '\\'
  }

  /** explode grows by one character at a time: a separator opens a new
      empty piece, any other character extends the last piece. */
  lemma {:induction false} ExplodeSnocSep(sep: char, s: string)
    ensures Explode(sep, s + [sep]) == Explode(sep, s) + [""]
    decreases |s|
  {
    if s == [] {
      assert s + [sep] == [sep];
      assert Explode(sep, [sep][1..]) == [""];
    } else {
      var s' := s + [sep];
      assert s'[0] == s[0];
      assert s'[1..] == s[1..] + [sep];
      ExplodeSnocSep(sep, s[1..]);
      var rest := Explode(sep, s[1..]);
      if s[0] != sep {
        assert (rest + [""])[1..] == rest[1..] + [""];
      }
    }
  }

  lemma {:induction false} ExplodeSnocOther(sep: char, s: string, c: char)
    requires c != sep
    ensures var e := Explode(sep, s);
            Explode(sep, s + [c]) == e[..|e| - 1] + [e[|e| - 1] + [c]]
    decreases |s|
  {
    if s == [] {
      assert s + [c] == [c];
      assert Explode(sep, [c][1..]) == [""];
      assert Explode(sep, [c]) == [[c] + ""];
      assert "" + [c] == [c] + "";
    } else {
      var s' := s + [c];
      assert s'[0] == s[0];
      assert s'[1..] == s[1..] + [c];
      ExplodeSnocOther(sep, s[1..], c);
      var rest := Explode(sep, s[1..]);
      var n := |rest|;
      if s[0] == sep {
        SnocOtherAfterSep(sep, s, c, rest);
      } else if n == 1 {
        assert [s[0]] + (rest[0] + [c]) == ([s[0]] + rest[0]) + [c];
      } else {
        SnocOtherInside(sep, s, c, rest);
      }
    }
  }

  lemma SnocOtherAfterSep(sep: char, s: string, c: char, rest: seq<string>)
    requires |s| > 0 && s[0] == sep && c != sep
    requires rest == Explode(sep, s[1..]) && (s + [c])[1..] == s[1..] + [c]
    requires Explode(sep, s[1..] + [c]) == rest[..|rest| - 1] + [rest[|rest| - 1] + [c]]
    ensures var e := Explode(sep, s);
            Explode(sep, s + [c]) == e[..|e| - 1] + [e[|e| - 1] + [c]]
  {
    var e := Explode(sep, s);
    assert e == [""] + rest;
    assert e[..|e| - 1] == [""] + rest[..|rest| - 1];
  }

  lemma SnocOtherInside(sep: char, s: string, c: char, rest: seq<string>)
    requires |s| > 0 && s[0] != sep && c != sep
    requires rest == Explode(sep, s[1..]) && |rest| > 1 && (s + [c])[1..] == s[1..] + [c]
    requires Explode(sep, s[1..] + [c]) == rest[..|rest| - 1] + [rest[|rest| - 1] + [c]]
    ensures var e := Explode(sep, s);
            Explode(sep, s + [c]) == e[..|e| - 1] + [e[|e| - 1] + [c]]
  {
    var n := |rest|;
    var r' := Explode(sep, s[1..] + [c]);
    var e := Explode(sep, s);
    assert e == [[s[0]] + rest[0]] + rest[1..];
    assert r'[0] == rest[0];
    assert r'[1..] == rest[1..n - 1] + [rest[n - 1] + [c]];
    assert e[..|e| - 1] == [[s[0]] + rest[0]] + rest[1..n - 1];
  }

  /** explode splits at every separator: a separator between two strings
      separates their pieces. */
  lemma {:induction false} ExplodeConcat(sep: char, x: string, y: string)
    ensures Explode(sep, x + [sep] + y) == Explode(sep, x) + Explode(sep, y)
    decreases |x|
  {
    var s := x + [sep] + y;
    if x == [] {
      assert s == [sep] + y;
      assert s[0] == sep && s[1..] == y;
      assert Explode(sep, x) == [""];
    } else {
      assert s[0] == x[0];
      assert s[1..] == x[1..] + [sep] + y;
      ExplodeConcat(sep, x[1..], y);
      ExplodeConcatCons(sep, x, y);
    }
  }

  /** The step of ExplodeConcat: the first character of `x` is consumed the
      same way on both sides. */
  lemma ExplodeConcatCons(sep: char, x: string, y: string)
    requires |x| > 0 && (x + [sep] + y)[1..] == x[1..] + [sep] + y
    requires Explode(sep, x[1..] + [sep] + y) == Explode(sep, x[1..]) + Explode(sep, y)
    ensures Explode(sep, x + [sep] + y) == Explode(sep, x) + Explode(sep, y)
  {
    var s := x + [sep] + y;
    assert s != [] && s[0] == x[0];
    var rest := Explode(sep, x[1..]);
    var r := Explode(sep, s[1..]);
    if x[0] == sep {
      assert Explode(sep, s) == [""] + r;
      assert Explode(sep, x) == [""] + rest;
      PrependEmpty(rest, Explode(sep, y));
    } else {
      assert Explode(sep, s) == [[x[0]] + r[0]] + r[1..];
      assert Explode(sep, x) == [[x[0]] + rest[0]] + rest[1..];
      ExtendFirst([x[0]], rest, Explode(sep, y));
    }
  }

  lemma PrependEmpty(rest: seq<string>, ey: seq<string>)
    ensures [""] + (rest + ey) == ([""] + rest) + ey
  {
  }

  lemma ExtendFirst(c: string, rest: seq<string>, ey: seq<string>)
    requires |rest| > 0
    ensures var r := rest + ey;
            [c + r[0]] + r[1..] == ([c + rest[0]] + rest[1..]) + ey
  {
    var r := rest + ey;
    assert r[0] == rest[0];
    assert r[1..] == rest[1..] + ey;
  }

  /** explode undoes implode when no piece holds the separator. */
  lemma {:induction false} ExplodeOfJoin(sep: char, parts: seq<string>)
    requires |parts| >= 1 && NoPieceHolds(parts, sep)
    ensures Explode(sep, Join(parts, [sep])) == parts
    decreases |parts|
  {
    assert forall i :: 0 <= i < |parts[0]| ==> parts[0][i] != sep;
    ExplodeWithoutSeparator(sep, parts[0]);
    if |parts| > 1 {
      var rest := parts[1..];
      assert NoPieceHolds(rest, sep) by {
        forall k, i | 0 <= k < |rest| && 0 <= i < |rest[k]| ensures rest[k][i] != sep {
          assert rest[k] == parts[k + 1];
        }
      }
      ExplodeOfJoin(sep, rest);
      ExplodeConcat(sep, parts[0], Join(rest, [sep]));
      assert Join(parts, [sep]) == parts[0] + [sep] + Join(rest, [sep]);
      assert [parts[0]] + rest == parts;
    }
  }

  lemma {:induction false} ExplodeWithoutSeparator(sep: char, s: string)
    requires forall i :: 0 <= i < |s| ==> s[i] != sep
    ensures Explode(sep, s) == [s]
    decreases |s|
  {
    if s != [] {
      ExplodeWithoutSeparator(sep, s[1..]);
      assert s[0] != sep;
      assert [s[0]] + s[1..] == s;
    }
  }

  /** The state explodePath holds, for a path without backslashes, once it has
      read the pieces `e` of a prefix: the non-empty pieces so far, the last one
      only if it has begun. */
  function PlainState(e: seq<string>): (r: (seq<string>, bool))
    requires |e| >= 1
    ensures r.1 || |r.0| > 0
  {
    var last := e[|e| - 1];
    (NonEmpty(e[..|e| - 1]) + (if last == "" then [] else [last]), last == "")
  }

  /** One character of a path without backslashes moves the state from the
      pieces of the prefix before it to the pieces of the prefix after it. */
  lemma PlainStep(path: string, k: nat)
    requires NoBackslash(path)
    requires k < |path|
    ensures var st := PlainState(Explode(':', path[..k]));
            ExplodeStep(path, k, st.0, st.1) == PlainState(Explode(':', path[..k + 1]))
  {
    var e := Explode(':', path[..k]);
    var c := path[k];
    assert path[..k + 1] == path[..k] + [c];
    assert !EscapedAt(path, k);
    if c == ':' {
      ExplodeSnocSep(':', path[..k]);
      PlainStepSep(e, Explode(':', path[..k + 1]));
    } else {
      ExplodeSnocOther(':', path[..k], c);
      PlainStepOther(e, Explode(':', path[..k + 1]), c);
    }
  }

  lemma PlainStepSep(e: seq<string>, e': seq<string>)
    requires |e| >= 1 && e' == e + [""]
    ensures PlainState(e') == (PlainState(e).0, true)
  {
    var n := |e|;
    assert e'[..|e'| - 1] == e;
    assert e == e[..n - 1] + [e[n - 1]];
    assert e'[|e'| - 1] == "";
    assert NonEmpty(e) == PlainState(e).0;
    assert NonEmpty(e) + [] == NonEmpty(e);
  }

  lemma PlainStepOther(e: seq<string>, e': seq<string>, c: char)
    requires |e| >= 1 && e' == e[..|e| - 1] + [e[|e| - 1] + [c]]
    ensures var st := PlainState(e);
            var started := if st.1 then st.0 + [""] else st.0;
            PlainState(e') == (started[..|started| - 1] + [started[|started| - 1] + [c]], false)
  {
    var n := |e|;
    var last := e[n - 1];
    var before := NonEmpty(e[..n - 1]);
    assert e'[..|e'| - 1] == e[..n - 1];
    assert e'[|e'| - 1] == last + [c];
    assert last + [c] != "";
    assert PlainState(e') == (before + [last + [c]], false);
    if last == "" {
      assert PlainState(e).0 == before && PlainState(e).1;
      PlainStepOtherFresh(before, c);
      assert "" + [c] == last + [c];
    } else {
      assert PlainState(e).0 == before + [last] && !PlainState(e).1;
      PlainStepOtherGrow(before, last, c);
    }
  }

  lemma PlainStepOtherFresh(before: seq<string>, c: char)
    ensures var started := before + [""];
            started[..|started| - 1] + [started[|started| - 1] + [c]] == before + ["" + [c]]
  {
    assert (before + [""])[..|before|] == before;
  }

  lemma PlainStepOtherGrow(before: seq<string>, last: string, c: char)
    ensures var started := before + [last];
            started[..|started| - 1] + [started[|started| - 1] + [c]] == before + [last + [c]]
  {
    assert (before + [last])[..|before|] == before;
  }

  /** After `k` characters of a path without backslashes, explodePath holds
      exactly the plain state of the pieces of that prefix. */
  lemma {:induction false} ExplodeUpToPlain(path: string, k: nat)
    requires NoBackslash(path)
    requires k <= |path|
    ensures ExplodeUpTo(path, k) == PlainState(Explode(':', path[..k]))
  {
    if k == 0 {
      assert path[..0] == "";
      assert Explode(':', "") == [""];
      assert PlainState([""]) == ([], true);
    } else {
      ExplodeUpToPlain(path, k - 1);
      PlainStep(path, k - 1);
    }
  }

  /** The last pass, at the position past the end, only starts the pending
      segment. */
  lemma ExplodeStepAtEnd(path: string, paths: seq<string>, pending: bool)
    requires pending || |paths| > 0
    ensures ExplodeStep(path, |path|, paths, pending) == (if pending then paths + [""] else paths, false)
  {
    var started := if pending then paths + [""] else paths;
    var last := started[|started| - 1];
    assert last + "" == last;
    assert started[..|started| - 1] + [last] == started;
  }

  /** For paths without backslashes explodePath is plain `explode(':')` with
      the empty pieces dropped, except that the last piece always survives. */
  lemma PathSegmentsOfPlainPath(path: string)
    requires NoBackslash(path)
    ensures PathSegments(path) == DropEmptyButLast(Explode(':', path))
  {
    assert path[..|path|] == path;
    ExplodeUpToPlain(path, |path|);
    var st := PlainState(Explode(':', path));
    ExplodeStepAtEnd(path, st.0, st.1);
  }

  /** A path without separators or backslashes is a single segment. */
  lemma PathSegmentsOfKey(path: string)
    requires PlainKey(path)
    ensures PathSegments(path) == [path]
  {
    PathSegmentsOfPlainPath(path);
    ExplodeWithoutSeparator(':', path);
  }

  /** The empty path is one empty segment. */
  lemma PathSegmentsOfEmptyPath()
    ensures PathSegments("") == [""]
  {
    PathSegmentsOfKey("");
  }

  /** A trailing separator leaves a last, empty segment. */
  lemma PathSegmentsTrailingSeparator(a: string)
    requires PlainKey(a) && a != ""
    ensures PathSegments(a + ":") == [a, ""]
  {
    assert NoBackslash(a + ":") by {
      forall i | 0 <= i < |a| + 1 ensures (a + ":")[i] != '\\' {
        if i < |a| { assert (a + ":")[i] == a[i]; }
      }
    }
    PathSegmentsOfPlainPath(a + ":");
    ExplodeSnocSep(':', a);
    ExplodeWithoutSeparator(':', a);
    assert Explode(':', a + ":") == [a, ""];
    assert NonEmpty([a]) == NonEmpty([]) + [a];
    assert [a, ""][..1] == [a];
  }

  /** A doubled separator leaves no empty segment between its neighbours. */
  lemma PathSegmentsDoubledSeparator(a: string, b: string)
    requires PlainKey(a) && PlainKey(b) && a != ""
    ensures PathSegments(a + "::" + b) == [a, b]
  {
    var path := a + "::" + b;
    assert NoBackslash(path) by {
      forall i | 0 <= i < |path| ensures path[i] != '\\' {
        if i < |a| { assert path[i] == a[i]; }
        else if i >= |a| + 2 { assert path[i] == b[i - |a| - 2]; }
      }
    }
    PathSegmentsOfPlainPath(path);
    var e := Explode(':', path);
    assert e == [a, "", b] by {
      assert path == a + [':'] + ("" + [':'] + b);
      ExplodeConcat(':', a, "" + [':'] + b);
      ExplodeConcat(':', "", b);
      ExplodeWithoutSeparator(':', a);
      ExplodeWithoutSeparator(':', b);
      assert Explode(':', "") == [""];
    }
    assert e[..2] == [a, ""];
    assert NonEmpty([a, ""]) == NonEmpty([a]) by {
      assert [a, ""][..1] == [a];
    }
    assert NonEmpty([a]) == NonEmpty([]) + [a];
  }

  /** No colon among the characters at positions k .. m-1. */
  predicate NoColonBetween(path: string, k: nat, m: nat)
    requires k <= m <= |path|
  {
    forall i :: k <= i < m ==> path[i] != ':'
  }

  /** Past a started segment, a character other than a colon extends it. */
  lemma ExplodeUpToExtend(path: string, m: nat)
    requires 0 < m <= |path|
    requires !ExplodeUpTo(path, m - 1).1 && path[m - 1] != ':'
    ensures var q := ExplodeUpTo(path, m - 1).0;
            ExplodeUpTo(path, m) == (q[..|q| - 1] + [q[|q| - 1] + [path[m - 1]]], false)
  {
  }

  /** Extending a segment by one character: the last segment grows, the others
      stay. */
  lemma ExtendLast(p: seq<string>, q: seq<string>, w: string, path: string, k: nat, m: nat)
    requires |p| > 0 && k < m <= |path|
    requires w == p[|p| - 1] + path[k..m - 1]
    requires q == p[..|p| - 1] + [w]
    ensures q[..|q| - 1] + [q[|q| - 1] + [path[m - 1]]] == p[..|p| - 1] + [p[|p| - 1] + path[k..m]]
  {
    assert q[..|q| - 1] == p[..|p| - 1] && q[|q| - 1] == w;
    assert path[k..m] == path[k..m - 1] + [path[m - 1]];
    assert w + [path[m - 1]] == p[|p| - 1] + path[k..m];
  }

  /** A run of characters without a colon only extends the segment
      explodePath is building. */
  lemma {:induction false} ExplodeUpToRun(path: string, k: nat, m: nat)
    requires k <= m <= |path|
    requires !ExplodeUpTo(path, k).1
    requires NoColonBetween(path, k, m)
    ensures !ExplodeUpTo(path, m).1
    ensures var p := ExplodeUpTo(path, k).0;
            ExplodeUpTo(path, m).0 == p[..|p| - 1] + [p[|p| - 1] + path[k..m]]
    decreases m - k
  {
    if m == k {
      RunEmpty(ExplodeUpTo(path, k).0, path, k);
    } else {
      assert NoColonBetween(path, k, m - 1);
      ExplodeUpToRun(path, k, m - 1);
      assert path[m - 1] != ':';
      RunStep(path, k, m);
    }
  }

  lemma RunEmpty(p: seq<string>, path: string, k: nat)
    requires |p| > 0 && k <= |path|
    ensures p == p[..|p| - 1] + [p[|p| - 1] + path[k..k]]
  {
    assert path[k..k] == "";
    assert p[|p| - 1] + "" == p[|p| - 1];
  }

  /** The step of ExplodeUpToRun: one more character of the run. */
  lemma RunStep(path: string, k: nat, m: nat)
    requires k < m <= |path| && path[m - 1] != ':'
    requires !ExplodeUpTo(path, k).1 && !ExplodeUpTo(path, m - 1).1
    requires var p := ExplodeUpTo(path, k).0;
             ExplodeUpTo(path, m - 1).0 == p[..|p| - 1] + [p[|p| - 1] + path[k..m - 1]]
    ensures !ExplodeUpTo(path, m).1
    ensures var p := ExplodeUpTo(path, k).0;
            ExplodeUpTo(path, m).0 == p[..|p| - 1] + [p[|p| - 1] + path[k..m]]
  {
    var p := ExplodeUpTo(path, k).0;
    var q := ExplodeUpTo(path, m - 1).0;
    ExtendLast(p, q, p[|p| - 1] + path[k..m - 1], path, k, m);
    ExplodeUpToExtend(path, m);
  }

  /** A first run without colons opens one segment holding it. */
  lemma OpenSingle(path: string, m: nat)
    requires 0 < m <= |path| && NoColonBetween(path, 0, m)
    ensures ExplodeUpTo(path, m) == ([path[..m]], false)
  {
    assert path[0] != ':';
    ExplodeUpToFirst(path);
    assert NoColonBetween(path, 1, m);
    ExplodeUpToRun(path, 1, m);
    var r := ExplodeUpTo(path, m);
    var p := [[path[0]]];
    assert r.0 == p[..0] + [p[0] + path[1..m]];
    assert p[..0] == [] && p[0] == [path[0]];
    assert [path[0]] + path[1..m] == path[..m];
    assert r.0 == [path[..m]];
  }

  /** A single open segment `w` absorbs a final run without colons, and the
      last pass adds nothing. */
  lemma FinishSingle(path: string, k: nat, w: string)
    requires k <= |path| && NoColonBetween(path, k, |path|)
    requires ExplodeUpTo(path, k) == ([w], false)
    ensures PathSegments(path) == [w + path[k..]]
  {
    ExplodeUpToRun(path, k, |path|);
    var r := ExplodeUpTo(path, |path|);
    assert [w][..0] == [] && [w][0] == w;
    assert path[k..|path|] == path[k..];
    assert r.0 == [w + path[k..]];
    ExplodeStepAtEnd(path, [w + path[k..]], false);
  }

  /** Where the colons of `a\:b` are, for keys without colons and
      backslashes. */
  lemma EscapedPathChars(a: string, b: string)
    requires PlainKey(a) && PlainKey(b)
    ensures var path := a + "\\:" + b; var n := |a|;
            |path| == n + 2 + |b| && path[n] == '\\' && path[n + 1] == ':'
            && path[..n + 1] == a + "\\" && path[n + 2..] == b
            && NoColonBetween(path, 0, n + 1) && NoColonBetween(path, n + 2, |path|)
  {
    var path := a + "\\:" + b;
    var n := |a|;
    assert path[..n + 1] == a + "\\";
    assert path[n + 2..] == b;
    assert NoColonBetween(path, 0, n + 1) by {
      forall i | 0 <= i < n + 1 ensures path[i] != ':' {
        if i < n { assert path[i] == a[i]; }
      }
    }
    assert NoColonBetween(path, n + 2, |path|) by {
      forall i | n + 2 <= i < |path| ensures path[i] != ':' {
        assert path[i] == b[i - n - 2];
      }
    }
  }

  /** `\:` is a literal colon inside a segment: the backslash is dropped and
      the segment goes on. */
  lemma PathSegmentsEscapedColon(a: string, b: string)
    requires PlainKey(a) && PlainKey(b)
    ensures PathSegments(a + "\\:" + b) == [a + ":" + b]
  {
    var path := a + "\\:" + b;
    var n := |a|;
    EscapedPathChars(a, b);
    OpenSingle(path, n + 1);
    EscapedColonStep(path, n + 1, a);
    FinishSingle(path, n + 2, a + ":");
    assert (a + ":") + b == a + ":" + b;
  }

  /** The first character, when it is not a separator, opens the first
      segment. */
  lemma ExplodeUpToFirst(path: string)
    requires |path| > 0 && path[0] != ':'
    ensures ExplodeUpTo(path, 1) == ([[path[0]]], false)
  {
    var r := ExplodeUpTo(path, 1);
    assert ExplodeUpTo(path, 0) == ([], true);
    assert r == ExplodeStep(path, 0, [], true);
    assert [""][..0] == [] && [""][0] + [path[0]] == [path[0]];
    assert r.0 == [[path[0]]];
  }

  /** An escaped colon at position k replaces the backslash ending the single
      segment `a + "\\"` with a colon. */
  lemma EscapedColonStep(path: string, k: nat, a: string)
    requires 0 < k < |path| && path[k] == ':' && path[k - 1] == '\\'
    requires ExplodeUpTo(path, k) == ([a + "\\"], false)
    ensures ExplodeUpTo(path, k + 1) == ([a + ":"], false)
  {
    var r := ExplodeUpTo(path, k + 1);
    assert r == ExplodeStep(path, k, [a + "\\"], false);
    assert DropLast(a + "\\") == a;
    assert [a + "\\"][..0] == [] && [a + "\\"][0] == a + "\\";
    assert a + [path[k]] == a + ":";
    assert r.0 == [a + ":"];
  }

  /** The character before the first is the last one, so a path that ends
      with a backslash has its leading colon read as escaped: it is one
      segment, the whole path. */
  lemma PathSegmentsLeadingColon(a: string)
    requires PlainKey(a)
    ensures PathSegments(":" + a + "\\") == [":" + a + "\\"]
  {
    var path := ":" + a + "\\";
    assert NoColonBetween(path, 1, |path|) by {
      forall i | 1 <= i < |path| ensures path[i] != ':' {
        if i <= |a| { assert path[i] == a[i - 1]; }
      }
    }
    assert ExplodeUpTo(path, 1) == ([":"], false) by {
      var r := ExplodeUpTo(path, 1);
      assert ExplodeUpTo(path, 0) == ([], true);
      assert r == ExplodeStep(path, 0, [], true);
      assert ColonAt(path, 0) && EscapedAt(path, 0);
      assert DropLast("") + ":" == ":";
      assert [""][..0] == [] && [""][0] == "";
      assert r.0 == [":"];
    }
    FinishSingle(path, 1, ":");
    assert ":" + path[1..] == path;
  }
}
