/** String helpers with Python's semantics: `str.isspace`, `str.strip()`
    with no argument, `str.split()` with no argument, and `''.join`. */
module Text {

  /** Python's `str.isspace` for one character: the code points of Unicode
      categories Zs, Zl, Zp and the bidirectional classes WS, B, S. */
  predicate IsSpace(c: char) {
    var n := c as int;
    || 0x09 <= n <= 0x0d
    || 0x1c <= n <= 0x20
    || n == 0x85
    || n == 0xa0
    || n == 0x1680
    || 0x2000 <= n <= 0x200a
    || n == 0x2028
    || n == 0x2029
    || n == 0x202f
    || n == 0x205f
    || n == 0x3000
  }

  predicate AllSpace(s: string) {
    forall k :: 0 <= k < |s| ==> IsSpace(s[k])
  }

  /** No whitespace anywhere: a single token once split. */
  predicate NoSpace(s: string) {
    forall k :: 0 <= k < |s| ==> !IsSpace(s[k])
  }

  /** Neither starts nor ends with whitespace, so `strip()` leaves it alone. */
  predicate Unpadded(s: string) {
    s == [] || (!IsSpace(s[0]) && !IsSpace(s[|s| - 1]))
  }

  /** `s.lstrip()` */
  function StripLeft(s: string): string {
    if s != [] && IsSpace(s[0]) then StripLeft(s[1..]) else s
  }

  /** `s.rstrip()` */
  function StripRight(s: string): string {
    if s != [] && IsSpace(s[|s| - 1]) then StripRight(s[..|s| - 1]) else s
  }

  /** `s.strip()` */
  function Strip(s: string): string {
    StripRight(StripLeft(s))
  }

  /** `lstrip` drops a whitespace prefix and nothing more. */
  lemma {:induction false} StripLeftDrops(s: string)
    ensures var r := StripLeft(s);
      && |r| <= |s| && r == s[|s| - |r|..]
      && AllSpace(s[..|s| - |r|])
      && (r == [] || !IsSpace(r[0]))
    decreases |s|
  {
    if s != [] && IsSpace(s[0]) {
      StripLeftDrops(s[1..]);
      var r := StripLeft(s);
      assert s[..|s| - |r|] == [s[0]] + s[1..][..|s| - 1 - |r|];
    }
  }

  /** `rstrip` drops a whitespace suffix and nothing more. */
  lemma {:induction false} StripRightDrops(s: string)
    ensures var r := StripRight(s);
      && |r| <= |s| && r == s[..|r|]
      && AllSpace(s[|r|..])
      && (r == [] || !IsSpace(r[|r| - 1]))
    decreases |s|
  {
    if s != [] && IsSpace(s[|s| - 1]) {
      var init := s[..|s| - 1];
      StripRightDrops(init);
      var r := StripRight(s);
      assert s[|r|..] == init[|r|..] + [s[|s| - 1]];
    }
  }

  /** `strip()` leaves a string that neither starts nor ends with whitespace,
      obtained by dropping a whitespace prefix and a whitespace suffix. */
  lemma {:induction false} StripDrops(s: string)
    ensures var r := Strip(s);
      && Unpadded(r)
      && exists i :: 0 <= i <= |s| - |r| && r == s[i..i + |r|] && AllSpace(s[..i]) && AllSpace(s[i + |r|..])
  {
    var l := StripLeft(s);
    StripLeftDrops(s);
    StripRightDrops(l);
    var r := StripRight(l);
    var i := |s| - |l|;
    assert r == s[i..i + |r|];
    assert s[i + |r|..] == l[|r|..];
  }

  lemma {:induction false} StripLeftOf(pre: string, rest: string)
    requires AllSpace(pre)
    requires rest == [] || !IsSpace(rest[0])
    ensures StripLeft(pre + rest) == rest
    decreases |pre|
  {
    if pre == [] {
      assert pre + rest == rest;
    } else {
      assert (pre + rest)[0] == pre[0];
      assert (pre + rest)[1..] == pre[1..] + rest;
      StripLeftOf(pre[1..], rest);
    }
  }

  lemma {:induction false} StripRightOf(rest: string, post: string)
    requires AllSpace(post)
    requires rest == [] || !IsSpace(rest[|rest| - 1])
    ensures StripRight(rest + post) == rest
    decreases |post|
  {
    if post == [] {
      assert rest + post == rest;
    } else {
      var s := rest + post;
      assert s[|s| - 1] == post[|post| - 1];
      assert s[..|s| - 1] == rest + post[..|post| - 1];
      StripRightOf(rest, post[..|post| - 1]);
    }
  }

  /** `strip()` removes exactly the surrounding whitespace: whatever unpadded
      middle is wrapped in whitespace is what comes back. */
  lemma {:induction false} StripOf(pre: string, mid: string, post: string)
    requires AllSpace(pre) && AllSpace(post) && Unpadded(mid)
    ensures Strip(pre + mid + post) == mid
  {
    if mid == [] {
      assert pre + mid + post == (pre + post) + [];
      assert AllSpace(pre + post);
      StripLeftOf(pre + post, []);
    } else {
      assert pre + mid + post == pre + (mid + post);
      StripLeftOf(pre, mid + post);
      StripRightOf(mid, post);
    }
  }

  /** Length of the leading run of non-whitespace characters. */
  function TokenLength(s: string): (n: nat)
    ensures n <= |s|
    ensures s != [] && !IsSpace(s[0]) ==> n >= 1
  {
    if s == [] || IsSpace(s[0]) then 0 else 1 + TokenLength(s[1..])
  }

  /** The run stops at the first whitespace character or at the end. */
  lemma {:induction false} TokenLengthStops(s: string)
    ensures NoSpace(s[..TokenLength(s)])
    ensures TokenLength(s) < |s| ==> IsSpace(s[TokenLength(s)])
    decreases |s|
  {
    if s != [] && !IsSpace(s[0]) {
      TokenLengthStops(s[1..]);
      var n := TokenLength(s);
      assert s[..n] == [s[0]] + s[1..][..n - 1];
    }
  }

  /** `s.split()`: the maximal runs of non-whitespace, in order. */
  function Split(s: string): seq<string>
    decreases |s|
  {
    if s == [] then []
    else if IsSpace(s[0]) then Split(s[1..])
    else
      var n := TokenLength(s);
      [s[..n]] + Split(s[n..])
  }

  /** `''.join(parts)` */
  function Concat(parts: seq<string>): (r: string)
    ensures |r| == SumLengths(parts)
  {
    if parts == [] then [] else parts[0] + Concat(parts[1..])
  }

  function SumLengths(parts: seq<string>): nat {
    if parts == [] then 0 else |parts[0]| + SumLengths(parts[1..])
  }

  lemma {:induction false} TokenLengthBounded(a: string, t: string)
    requires t != [] && IsSpace(t[0])
    ensures TokenLength(a + t) == TokenLength(a)
    decreases |a|
  {
    if a == [] {
      assert a + t == t;
    } else {
      assert (a + t)[0] == a[0];
      assert (a + t)[1..] == a[1..] + t;
      TokenLengthBounded(a[1..], t);
    }
  }

  /** Splitting at a whitespace character splits the two sides independently. */
  lemma {:induction false} SplitAtSpace(a: string, c: char, b: string)
    requires IsSpace(c)
    ensures Split(a + [c] + b) == Split(a) + Split(b)
    decreases |a|
  {
    var s := a + [c] + b;
    if a == [] {
      assert s[0] == c;
      assert s[1..] == b;
    } else if IsSpace(a[0]) {
      assert s[0] == a[0];
      assert s[1..] == a[1..] + [c] + b;
      SplitAtSpace(a[1..], c, b);
    } else {
      assert s[0] == a[0];
      assert s == a + ([c] + b);
      TokenLengthBounded(a, [c] + b);
      var n := TokenLength(a);
      assert n >= 1;
      assert s[..n] == a[..n];
      assert s[n..] == a[n..] + [c] + b;
      SplitAtSpace(a[n..], c, b);
    }
  }

  lemma {:induction false} SplitToken(w: string)
    requires NoSpace(w)
    ensures Split(w) == if w == [] then [] else [w]
  {
    if w != [] {
      var n := TokenLength(w);
      TokenLengthStops(w);
      assert n == |w|;
      assert w[..n] == w;
      assert w[n..] == [];
    }
  }

  lemma {:induction false} SplitLeadingSpace(pre: string, s: string)
    requires AllSpace(pre)
    ensures Split(pre + s) == Split(s)
    decreases |pre|
  {
    if pre != [] {
      assert (pre + s)[0] == pre[0];
      assert (pre + s)[1..] == pre[1..] + s;
      SplitLeadingSpace(pre[1..], s);
    } else {
      assert pre + s == s;
    }
  }

  lemma {:induction false} SplitTrailingSpace(s: string, post: string)
    requires AllSpace(post)
    ensures Split(s + post) == Split(s)
    decreases |post|
  {
    if post == [] {
      assert s + post == s;
    } else {
      var init := post[..|post| - 1];
      var last := post[|post| - 1];
      assert s + post == (s + init) + [last] + [];
      SplitAtSpace(s + init, last, []);
      assert Split([]) == [];
      SplitTrailingSpace(s, init);
    }
  }

  /** Stripping never changes the tokens. */
  lemma {:induction false} SplitStrip(s: string)
    ensures Split(Strip(s)) == Split(s)
  {
    var l := StripLeft(s);
    StripLeftDrops(s);
    var pre := s[..|s| - |l|];
    assert s == pre + l;
    SplitLeadingSpace(pre, l);
    var r := StripRight(l);
    StripRightDrops(l);
    var post := l[|r|..];
    assert l == r + post;
    SplitTrailingSpace(r, post);
  }

}
