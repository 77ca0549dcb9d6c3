/**
 * The Python string operations the two converters rely on, over strings as
 * sequences of characters: `str.split()`, `sep.join(...)`, `str.split(c)`,
 * `sub in s`, slicing with clamped bounds and `str(n)` for a natural number.
 */
module Text {

  /** `c.isspace()`: the characters that `str.split()` with no argument separates on. */
  predicate IsSpace(c: char)
  {
    var n := c as int;
    n == 0x20 || 0x09 <= n <= 0x0D || 0x1C <= n <= 0x1F || n == 0x85 || n == 0xA0
    || n == 0x1680 || 0x2000 <= n <= 0x200A || n == 0x2028 || n == 0x2029
    || n == 0x202F || n == 0x205F || n == 0x3000
  }

  /** A piece that `str.split()` can return: a non-empty run of non-space characters. */
  predicate IsToken(t: string)
  {
    t != [] && forall k | 0 <= k < |t| :: !IsSpace(t[k])
  }

  /** Length of the run of non-space characters that starts `s`. */
  function TokenLength(s: string): (n: nat)
    ensures n <= |s|
    ensures forall k | 0 <= k < n :: !IsSpace(s[k])
    ensures n < |s| ==> IsSpace(s[n])
  {
    if s == [] || IsSpace(s[0]) then 0 else 1 + TokenLength(s[1..])
  }

  /** `s.split()`: the maximal runs of non-space characters of `s`, in order. */
  function Split(s: string): (r: seq<string>)
    ensures forall k | 0 <= k < |r| :: IsToken(r[k])
    decreases |s|
  {
    if s == [] then []
    else if IsSpace(s[0]) then Split(s[1..])
    else
      var n := TokenLength(s);
      [s[..n]] + Split(s[n..])
  }

  /** `sep.join(parts)`. */
  function Join(parts: seq<string>, sep: string): string
  {
    if parts == [] then ""
    else if |parts| == 1 then parts[0]
    else parts[0] + sep + Join(parts[1..], sep)
  }

  /** Index of the first `c` in `s`, or `|s|` when there is none. */
  function IndexOf(s: string, c: char): (i: nat)
    ensures i <= |s|
    ensures i < |s| ==> s[i] == c
    ensures forall k | 0 <= k < i :: s[k] != c
  {
    if s == [] || s[0] == c then 0 else 1 + IndexOf(s[1..], c)
  }

  /** `s.rfind(c)`: index of the last `c` in `s`, or -1 when there is none. */
  function LastIndexOf(s: string, c: char): (i: int)
    ensures -1 <= i < |s|
    ensures 0 <= i ==> s[i] == c
    ensures forall k | i < k < |s| :: s[k] != c
  {
    if s == [] then -1
    else if s[|s| - 1] == c then |s| - 1
    else LastIndexOf(s[..|s| - 1], c)
  }

  /**
   * `s.split(c)` for a one-character separator: the pieces between the
   * occurrences of `c`; there is always at least one, and joining them with
   * `c` gives `s` back.
   */
  function SplitOn(s: string, c: char): (r: seq<string>)
    ensures |r| >= 1
    ensures forall k | 0 <= k < |r| :: c !in r[k]
    ensures Join(r, [c]) == s
    decreases |s|
  {
    var i := IndexOf(s, c);
    if i == |s| then [s]
    else
      var rest := SplitOn(s[i + 1..], c);
      assert s == s[..i] + [c] + s[i + 1..];
      [s[..i]] + rest
  }

  predicate StartsWith(s: string, prefix: string)
  {
    |prefix| <= |s| && s[..|prefix|] == prefix
  }

  /** Python's `sub in s`. */
  predicate Contains(s: string, sub: string)
    decreases |s|
  {
    StartsWith(s, sub) || (s != [] && Contains(s[1..], sub))
  }

  /** Python's `s[i:j]` for non-negative bounds: both are clamped to `|s|`. */
  function Slice(s: string, i: nat, j: nat): (r: string)
    ensures |r| <= |s|
  {
    var hi := if j <= |s| then j else |s|;
    var lo := if i <= hi then i else hi;
    s[lo..hi]
  }

  /**
   * Number of lines a `for line in file` loop that breaks right after the
   * first line containing `key` reads: one past that line, or all lines when
   * none contains `key`.
   */
  function ThroughFirst(lines: seq<string>, key: string): (n: nat)
    ensures n <= |lines|
    ensures forall k | 0 <= k < n - 1 :: !Contains(lines[k], key)
    ensures (0 < n && Contains(lines[n - 1], key))
            || (n == |lines| && forall k | 0 <= k < |lines| :: !Contains(lines[k], key))
  {
    if lines == [] then 0
    else if Contains(lines[0], key) then 1
    else 1 + ThroughFirst(lines[1..], key)
  }

  function DigitChar(d: nat): char
    requires d < 10
  {
    (48 + d) as char
  }

  /** `str(n)`: the decimal numeral of `n`, without leading zeros. */
  function NatToString(n: nat): (s: string)
    ensures |s| >= 1
    ensures forall k | 0 <= k < |s| :: '0' <= s[k] <= '9'
    ensures s[0] == '0' <==> n == 0
    ensures s[0] == '0' ==> |s| == 1
  {
    if n < 10 then [DigitChar(n)] else NatToString(n / 10) + [DigitChar(n % 10)]
  }

  /** Value of a decimal numeral (the inverse of `NatToString`). */
  function ParseNat(s: string): nat
  {
    if s == [] then 0
    else
      var c := s[|s| - 1];
      10 * ParseNat(s[..|s| - 1]) + (if '0' <= c <= '9' then c as int - 48 else 0)
  }

  lemma {:induction false} ParseNatToString(n: nat)
    ensures ParseNat(NatToString(n)) == n
  {
    if n >= 10 {
      var s := NatToString(n);
      assert s[..|s| - 1] == NatToString(n / 10);
      ParseNatToString(n / 10);
    }
  }

  lemma {:induction false} TokenLengthAppend(t: string, u: string)
    requires forall k | 0 <= k < |t| :: !IsSpace(t[k])
    requires u == [] || IsSpace(u[0])
    ensures TokenLength(t + u) == |t|
  {
    if t == [] {
      assert t + u == u;
    } else {
      assert (t + u)[1..] == t[1..] + u;
      TokenLengthAppend(t[1..], u);
    }
  }

  /** Splitting tokens joined by single spaces gives the tokens back. */
  lemma {:induction false} SplitJoin(tokens: seq<string>)
    requires forall k | 0 <= k < |tokens| :: IsToken(tokens[k])
    ensures Split(Join(tokens, " ")) == tokens
  {
    if tokens != [] {
      var t := tokens[0];
      var tail := if |tokens| == 1 then "" else " " + Join(tokens[1..], " ");
      var s := Join(tokens, " ");
      assert s == t + tail;
      TokenLengthAppend(t, tail);
      assert s[..|t|] == t;
      assert s[|t|..] == tail;
      SplitJoin(tokens[1..]);
      if |tokens| > 1 {
        assert tail[1..] == Join(tokens[1..], " ");
      }
      assert tokens == [t] + tokens[1..];
    }
  }

  /** Joining pieces free of `c` with `c` and splitting on `c` gives the pieces back. */
  lemma {:induction false} SplitOnJoin(parts: seq<string>, c: char)
    requires |parts| >= 1
    requires forall k | 0 <= k < |parts| :: c !in parts[k]
    ensures SplitOn(Join(parts, [c]), c) == parts
  {
    var p := parts[0];
    if |parts| == 1 {
      assert forall k | 0 <= k < |p| :: p[k] in p;
    } else {
      var rest := parts[1..];
      assert c !in p;
      SplitOnCons(Join(parts, [c]), c, p, Join(rest, [c]));
      SplitOnJoin(rest, c);
      assert parts == [p] + rest;
    }
  }

  /** A string that starts with a `c`-free `head` and then a `c` splits into `head` and the split of what follows. */
  lemma SplitOnCons(s: string, c: char, head: string, rest: string)
    requires s == head + [c] + rest && c !in head
    ensures SplitOn(s, c) == [head] + SplitOn(rest, c)
  {
    assert forall k | 0 <= k < |head| :: s[k] == head[k];
    IndexOfUnique(s, c, |head|);
    assert s[..|head|] == head;
    assert s[|head| + 1..] == rest;
  }

  /** `IndexOf` is the only index that is a `c`, or the end, with no `c` before it. */
  lemma IndexOfUnique(s: string, c: char, i: nat)
    requires i <= |s| && (i < |s| ==> s[i] == c)
    requires forall k | 0 <= k < i :: s[k] != c
    ensures IndexOf(s, c) == i
  {
    var j := IndexOf(s, c);
    assert j <= i by {
      if i < |s| { assert s[i] == c; }
    }
    assert i <= j;
  }

  /** Appending characters none of which is `c` leaves the last `c` where it was. */
  lemma {:induction false} LastIndexOfAppend(a: string, b: string, c: char)
    requires c !in b
    ensures LastIndexOf(a + b, c) == LastIndexOf(a, c)
  {
    if b == [] {
      assert a + b == a;
    } else {
      var s := a + b;
      assert s[|s| - 1] == b[|b| - 1] && b[|b| - 1] in b;
      assert s[..|s| - 1] == a + b[..|b| - 1];
      assert forall x | x in b[..|b| - 1] :: x in b;
      LastIndexOfAppend(a, b[..|b| - 1], c);
    }
  }

  /** Splitting on `c` around one occurrence of `c` splits each side on its own. */
  lemma SplitOnConcat(x: string, y: string, c: char)
    ensures SplitOn(x + [c] + y, c) == SplitOn(x, c) + SplitOn(y, c)
  {
    var p, q := SplitOn(x, c), SplitOn(y, c);
    JoinConcat(p, q, [c]);
    assert forall k | 0 <= k < |p + q| :: c !in (p + q)[k] by {
      forall k | 0 <= k < |p + q| ensures c !in (p + q)[k] {
        if k < |p| { assert (p + q)[k] == p[k]; } else { assert (p + q)[k] == q[k - |p|]; }
      }
    }
    SplitOnJoin(p + q, c);
  }

  /** Joining two non-empty lists of parts is joining each and putting `sep` between. */
  lemma {:induction false} JoinConcat(p: seq<string>, q: seq<string>, sep: string)
    requires |p| >= 1 && |q| >= 1
    ensures Join(p + q, sep) == Join(p, sep) + sep + Join(q, sep)
    decreases |p|
  {
    assert (p + q)[0] == p[0];
    if |p| == 1 {
      assert (p + q)[1..] == q;
    } else {
      assert (p + q)[1..] == p[1..] + q;
      JoinConcat(p[1..], q, sep);
    }
  }

  /** `s.replace(c, d)` for single characters. */
  function ReplaceChar(s: string, c: char, d: char): string
  {
    seq(|s|, k requires 0 <= k < |s| => if s[k] == c then d else s[k])
  }

  /** Splitting on `c` and joining with `d` replaces every `c` by `d`. */
  lemma {:induction false} JoinSplitOn(s: string, c: char, d: char)
    ensures Join(SplitOn(s, c), [d]) == ReplaceChar(s, c, d)
    decreases |s|
  {
    var i := IndexOf(s, c);
    if i == |s| {
      assert ReplaceChar(s, c, d) == s;
    } else {
      var head, tail := s[..i], s[i + 1..];
      JoinSplitOnStep(s, c, d);
      JoinSplitOn(tail, c, d);
      ReplaceCharAround(head, tail, c, d);
      assert s == head + [c] + tail;
    }
  }

  /** Where `s` has a `c`, splitting on it and joining with `d` puts a `d` at its first one. */
  lemma JoinSplitOnStep(s: string, c: char, d: char)
    requires IndexOf(s, c) < |s|
    ensures var i := IndexOf(s, c);
            Join(SplitOn(s, c), [d]) == s[..i] + [d] + Join(SplitOn(s[i + 1..], c), [d])
  {
    var i := IndexOf(s, c);
    var rest := SplitOn(s[i + 1..], c);
    var parts := [s[..i]] + rest;
    assert SplitOn(s, c) == parts;
    assert parts[0] == s[..i] && parts[1..] == rest && |parts| > 1;
  }

  /** `ReplaceChar` over a string with a `c` in its middle, when the part before it has none. */
  lemma ReplaceCharAround(head: string, tail: string, c: char, d: char)
    requires c !in head
    ensures ReplaceChar(head + [c] + tail, c, d) == head + [d] + ReplaceChar(tail, c, d)
  {
    var s := head + [c] + tail;
    var r := ReplaceChar(s, c, d);
    var rt := ReplaceChar(tail, c, d);
    var joined := head + [d] + rt;
    assert |joined| == |r|;
    forall k | 0 <= k < |r|
      ensures r[k] == joined[k]
    {
      if k < |head| {
        assert joined[k] == head[k] == s[k];
        assert head[k] in head;
      } else if k > |head| {
        assert joined[k] == rt[k - |head| - 1] && tail[k - |head| - 1] == s[k];
      }
    }
  }

  /** The tokens of `s` are made of characters of `s`: a character absent from `s` is absent from each token. */
  lemma {:induction false} SplitWithout(s: string, c: char)
    requires c !in s
    ensures forall k | 0 <= k < |Split(s)| :: c !in Split(s)[k]
    decreases |s|
  {
    if s != [] {
      assert forall x | x in s[1..] :: x in s;
      if IsSpace(s[0]) {
        SplitWithout(s[1..], c);
      } else {
        var n := TokenLength(s);
        assert forall x | x in s[..n] :: x in s;
        assert forall x | x in s[n..] :: x in s;
        SplitWithout(s[n..], c);
        assert Split(s) == [s[..n]] + Split(s[n..]);
      }
    }
  }

  /** A string shorter than `sub` does not contain it. */
  lemma {:induction false} ContainsShorter(s: string, sub: string)
    requires |s| < |sub|
    ensures !Contains(s, sub)
    decreases |s|
  {
    if s != [] {
      ContainsShorter(s[1..], sub);
    }
  }

  /** Lines before the first one containing `key` only shift where the loop stops. */
  lemma {:induction false} ThroughFirstAppend(a: seq<string>, b: seq<string>, key: string)
    requires forall k | 0 <= k < |a| :: !Contains(a[k], key)
    ensures ThroughFirst(a + b, key) == |a| + ThroughFirst(b, key)
    decreases |a|
  {
    if a == [] {
      assert a + b == b;
    } else {
      assert (a + b)[0] == a[0];
      assert (a + b)[1..] == a[1..] + b;
      ThroughFirstAppend(a[1..], b, key);
    }
  }

  /** A line the loop reads ends it exactly when it contains `key`, or when it is the last line. */
  lemma ThroughFirstAt(lines: seq<string>, key: string, i: nat)
    requires i < ThroughFirst(lines, key)
    ensures Contains(lines[i], key) ==> i + 1 == ThroughFirst(lines, key)
    ensures !Contains(lines[i], key) ==> i + 1 < ThroughFirst(lines, key) || i + 1 == |lines|
  {
  }
}
