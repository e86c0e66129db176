/**
 * Python's string operations that the question formatter relies on:
 * `str.split(';')` and `str.strip()` with no argument.
 */
module Text {

  /** The separator `format_questions` splits on. */
  const Sep: char := ';'

  /**
   * The characters for which Python's `str.isspace()` holds, i.e. the
   * characters `str.strip()` removes when called without an argument.
   */
  predicate IsSpace(c: char) {
    || ('\U{9}' <= c <= '\U{D}')
    || ('\U{1C}' <= c <= '\U{20}')
    || c == '\U{85}' || c == '\U{A0}' || c == '\U{1680}'
    || ('\U{2000}' <= c <= '\U{200A}')
    || c == '\U{2028}' || c == '\U{2029}' || c == '\U{202F}'
    || c == '\U{205F}' || c == '\U{3000}'
  }

  predicate AllSpace(s: string) {
    forall k :: 0 <= k < |s| ==> IsSpace(s[k])
  }

  /** A string with no whitespace at either end. */
  predicate IsStripped(s: string) {
    s == [] || (!IsSpace(s[0]) && !IsSpace(s[|s| - 1]))
  }

  /** Number of separators in `s`. */
  function SepCount(s: string): nat {
    multiset(s)[Sep]
  }

  // ---------------------------------------------------------------------
  // str.split(';')
  // ---------------------------------------------------------------------

  /**
   * `s.split(';')`: the maximal separator-free pieces of `s`, in order.
   * A string with n separators always gives n + 1 pieces, so the empty
   * string gives one empty piece.
   */
  function Split(s: string): (pieces: seq<string>)
    ensures |pieces| == SepCount(s) + 1
    ensures forall k :: 0 <= k < |pieces| ==> Sep !in pieces[k]
    decreases |s|
  {
    if s == [] then [""]
    else
      var rest := Split(s[1..]);
      assert s == [s[0]] + s[1..];
      if s[0] == Sep then [""] + rest
      else [[s[0]] + rest[0]] + rest[1..]
  }

  /** `';'.join(pieces)`. */
  function Join(pieces: seq<string>): string
    requires |pieces| >= 1
  {
    if |pieces| == 1 then pieces[0]
    else pieces[0] + [Sep] + Join(pieces[1..])
  }

  /** Joining the pieces back with the separator gives the input again. */
  lemma {:induction false} JoinSplit(s: string)
    ensures Join(Split(s)) == s
    decreases |s|
  {
    if s != [] {
      var rest := Split(s[1..]);
      JoinSplit(s[1..]);
      if s[0] != Sep && |rest| > 1 {
        assert Join(rest) == rest[0] + [Sep] + Join(rest[1..]);
        assert Join(Split(s)) == [s[0]] + rest[0] + [Sep] + Join(rest[1..]);
      }
    }
  }

  /** A separator-free prefix is glued onto the first piece of what follows. */
  lemma {:induction false} SplitGluesPrefix(p: string, t: string)
    requires Sep !in p
    ensures Split(p + t) == [p + Split(t)[0]] + Split(t)[1..]
    decreases |p|
  {
    if p == [] {
      assert p + t == t && p + Split(t)[0] == Split(t)[0];
      assert Split(t) == [Split(t)[0]] + Split(t)[1..];
    } else {
      assert (p + t)[1..] == p[1..] + t;
      assert (p + t)[0] == p[0] && p[0] != Sep;
      SplitGluesPrefix(p[1..], t);
      var rest := Split(p[1..] + t);
      assert Split(p + t) == [[p[0]] + rest[0]] + rest[1..];
      assert [p[0]] + (p[1..] + Split(t)[0]) == p + Split(t)[0];
    }
  }

  /**
   * Splitting is the inverse of joining on any non-empty list of
   * separator-free strings: together with JoinSplit this pins Split down.
   */
  lemma {:induction false} SplitJoin(pieces: seq<string>)
    requires |pieces| >= 1
    requires forall k :: 0 <= k < |pieces| ==> Sep !in pieces[k]
    ensures Split(Join(pieces)) == pieces
    decreases |pieces|
  {
    if |pieces| == 1 {
      assert pieces[0] + "" == pieces[0];
      SplitGluesPrefix(pieces[0], "");
    } else {
      var tail := [Sep] + Join(pieces[1..]);
      assert Join(pieces) == pieces[0] + tail;
      SplitGluesPrefix(pieces[0], tail);
      assert tail[1..] == Join(pieces[1..]);
      SplitJoin(pieces[1..]);
      assert tail[0] == Sep;
      assert Split(tail) == [""] + pieces[1..];
      assert pieces[0] + "" == pieces[0];
      assert pieces == [pieces[0]] + pieces[1..];
    }
  }

  /** Splitting `a;b` gives the pieces of `a` followed by the pieces of `b`. */
  lemma {:induction false} SplitAppend(a: string, b: string)
    ensures Split(a + [Sep] + b) == Split(a) + Split(b)
    decreases |a|
  {
    if a == [] {
      assert a + [Sep] + b == [Sep] + b;
      assert ([Sep] + b)[1..] == b;
    } else {
      assert (a + [Sep] + b)[1..] == a[1..] + [Sep] + b;
      assert (a + [Sep] + b)[0] == a[0];
      SplitAppend(a[1..], b);
    }
  }

  // ---------------------------------------------------------------------
  // str.strip()
  // ---------------------------------------------------------------------

  /**
   * `s.strip()`: drop whitespace from the front, then from the back, until
   * neither end is whitespace.
   */
  function Strip(s: string): (r: string)
    ensures IsStripped(r)
    ensures |r| <= |s|
    decreases |s|
  {
    if s != [] && IsSpace(s[0]) then Strip(s[1..])
    else if s != [] && IsSpace(s[|s| - 1]) then Strip(s[..|s| - 1])
    else s
  }

  /**
   * What Strip removes is whitespace: `s` is the whitespace `lead`, then
   * `Strip(s)`, then the whitespace `trail`.
   */
  lemma {:induction false} StripRemovesOnlySpace(s: string) returns (lead: string, trail: string)
    ensures s == lead + Strip(s) + trail
    ensures AllSpace(lead) && AllSpace(trail)
    decreases |s|
  {
    if s != [] && IsSpace(s[0]) {
      var l, t := StripRemovesOnlySpace(s[1..]);
      lead, trail := [s[0]] + l, t;
      assert s == [s[0]] + s[1..];
      assert AllSpace(lead) by {
        forall k | 0 <= k < |lead| ensures IsSpace(lead[k]) {
          if k > 0 { assert lead[k] == l[k - 1]; }
        }
      }
    } else if s != [] && IsSpace(s[|s| - 1]) {
      var l, t := StripRemovesOnlySpace(s[..|s| - 1]);
      lead, trail := l, t + [s[|s| - 1]];
      assert s == s[..|s| - 1] + [s[|s| - 1]];
      assert AllSpace(trail) by {
        forall k | 0 <= k < |trail| ensures IsSpace(trail[k]) {
          if k < |t| { assert trail[k] == t[k]; }
        }
      }
    } else {
      lead, trail := "", "";
      assert s == lead + s + trail;
    }
  }

  /**
   * Strip is characterised by its result: whenever `s` is whitespace,
   * then a stripped string `m`, then whitespace, `s.strip()` is `m`.
   */
  lemma {:induction false} StripUnique(a: string, m: string, b: string)
    requires AllSpace(a) && AllSpace(b) && IsStripped(m)
    ensures Strip(a + m + b) == m
    decreases |a| + |b|
  {
    var s := a + m + b;
    if a != [] {
      assert s[0] == a[0] && IsSpace(s[0]);
      assert s[1..] == a[1..] + m + b;
      assert AllSpace(a[1..]) by {
        forall k | 0 <= k < |a| - 1 ensures IsSpace(a[1..][k]) { assert a[1..][k] == a[k + 1]; }
      }
      StripUnique(a[1..], m, b);
    } else if m == [] && b != [] {
      assert s == b && IsSpace(s[0]);
      assert s[1..] == a + m + b[1..];
      assert AllSpace(b[1..]) by {
        forall k | 0 <= k < |b| - 1 ensures IsSpace(b[1..][k]) { assert b[1..][k] == b[k + 1]; }
      }
      StripUnique(a, m, b[1..]);
    } else if b != [] {
      assert s == m + b && s[0] == m[0] && !IsSpace(s[0]);
      assert s[|s| - 1] == b[|b| - 1] && IsSpace(s[|s| - 1]);
      var b' := b[..|b| - 1];
      assert s[..|s| - 1] == a + m + b';
      assert AllSpace(b') by {
        forall k | 0 <= k < |b'| ensures IsSpace(b'[k]) { assert b'[k] == b[k]; }
      }
      StripUnique(a, m, b');
    } else {
      assert s == m;
    }
  }

  /** Stripping is idempotent. */
  lemma StripIdempotent(s: string)
    ensures Strip(Strip(s)) == Strip(s)
  {
    var r := Strip(s);
    assert "" + r + "" == r;
    StripUnique("", r, "");
  }

  /** Stripping never introduces a separator. */
  lemma {:induction false} StripKeepsSepOut(s: string)
    requires Sep !in s
    ensures Sep !in Strip(s)
  {
    var lead, trail := StripRemovesOnlySpace(s);
    assert Sep in Strip(s) ==> Sep in lead + Strip(s) + trail;
  }
}
