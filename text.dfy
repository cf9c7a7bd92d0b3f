/**
 * The pieces of Python's `str` used by the task: `str.split()` with no
 * separator, `' '.join(...)` and the decimal rendering of `{0:d}`.
 */
module Text {

  /** Python 3's `str.isspace`, the separator set of `str.split()` without an argument. */
  predicate IsSpace(c: char)
  {
    var x := c as int;
    (0x09 <= x <= 0x0D) || (0x1C <= x <= 0x20) || x == 0x85 || x == 0xA0 ||
    x == 0x1680 || (0x2000 <= x <= 0x200A) || x == 0x2028 || x == 0x2029 ||
    x == 0x202F || x == 0x205F || x == 0x3000
  }

  predicate NoSpace(s: string)
  {
    forall i :: 0 <= i < |s| ==> !IsSpace(s[i])
  }

  /** A token of `str.split()`: non-empty and free of whitespace. */
  predicate IsToken(t: string)
  {
    t != [] && NoSpace(t)
  }

  /** Length of the longest whitespace-free prefix of `s`. */
  function TokenLength(s: string): (n: nat)
    ensures n <= |s| && NoSpace(s[..n])
    ensures n < |s| ==> IsSpace(s[n])
    ensures s != [] && !IsSpace(s[0]) ==> n > 0
  {
    if s == [] || IsSpace(s[0]) then 0 else 1 + TokenLength(s[1..])
  }

  /**
   * `s.split()`: the maximal runs of non-whitespace characters, in order;
   * leading and trailing whitespace give no empty tokens.
   */
  function Split(s: string): seq<string>
    decreases |s|
  {
    if s == [] then []
    else if IsSpace(s[0]) then Split(s[1..])
    else
      var n := TokenLength(s);
      [s[..n]] + Split(s[n..])
  }

  /** Every word of `str.split()` is non-empty and whitespace-free. */
  lemma {:induction false} SplitWordsAreTokens(s: string)
    ensures forall i :: 0 <= i < |Split(s)| ==> IsToken(Split(s)[i])
    decreases |s|
  {
    if s == [] {
    } else if IsSpace(s[0]) {
      SplitWordsAreTokens(s[1..]);
    } else {
      var n := TokenLength(s);
      SplitWordsAreTokens(s[n..]);
      forall i | 0 <= i < |Split(s)|
        ensures IsToken(Split(s)[i])
      {
        if i > 0 {
          assert Split(s)[i] == Split(s[n..])[i - 1];
        }
      }
    }
  }

  /** `' '.join(ts)`. */
  function JoinWithSpaces(ts: seq<string>): string
  {
    if |ts| == 0 then ""
    else if |ts| == 1 then ts[0]
    else ts[0] + " " + JoinWithSpaces(ts[1..])
  }

  /** The first token is exactly the whitespace-free prefix, whatever follows a space. */
  lemma {:induction false} TokenLengthOf(t: string, rest: string)
    requires NoSpace(t)
    requires rest == [] || IsSpace(rest[0])
    ensures TokenLength(t + rest) == |t|
    decreases |t|
  {
    if t == [] {
      assert t + rest == rest;
    } else {
      assert (t + rest)[0] == t[0];
      assert (t + rest)[1..] == t[1..] + rest;
      TokenLengthOf(t[1..], rest);
    }
  }

  /** Splitting a space-joined list of tokens gives the tokens back. */
  lemma {:induction false} SplitJoin(ts: seq<string>)
    requires forall i :: 0 <= i < |ts| ==> IsToken(ts[i])
    ensures Split(JoinWithSpaces(ts)) == ts
    decreases |ts|
  {
    if |ts| == 1 {
      var t := ts[0];
      TokenLengthOf(t, []);
      assert t + [] == t;
      assert t[..|t|] == t && t[|t|..] == [];
    } else if |ts| > 1 {
      var t, j := ts[0], JoinWithSpaces(ts[1..]);
      var s := t + " " + j;
      assert s == t + (" " + j);
      TokenLengthOf(t, " " + j);
      assert s[..|t|] == t;
      assert s[|t|..] == " " + j;
      assert (" " + j)[1..] == j;
      SplitJoin(ts[1..]);
      assert ts == [t] + ts[1..];
    }
  }

  /** Re-splitting the joined form of a split (the logged command line) gives the same tokens. */
  lemma SplitOfJoinedSplit(s: string)
    ensures Split(JoinWithSpaces(Split(s))) == Split(s)
  {
    SplitWordsAreTokens(s);
    SplitJoin(Split(s));
  }

  function DecimalDigit(d: nat): (c: char)
    requires d < 10
    ensures c as int == '0' as int + d
  {
    "0123456789"[d]
  }

  /** `'{0:d}'.format(n)` for a non-negative `n`. */
  function Decimal(n: nat): (r: string)
    ensures r != []
    ensures forall i :: 0 <= i < |r| ==> '0' <= r[i] <= '9'
    decreases n
  {
    if n < 10 then [DecimalDigit(n)] else Decimal(n / 10) + [DecimalDigit(n % 10)]
  }

  predicate IsDigits(s: string)
  {
    forall i :: 0 <= i < |s| ==> '0' <= s[i] <= '9'
  }

  /** The number a string of decimal digits denotes, most significant digit first. */
  function DigitsValue(s: string): nat
    requires IsDigits(s)
  {
    if s == [] then 0
    else DigitsValue(s[..|s| - 1]) * 10 + (s[|s| - 1] as int - '0' as int)
  }

  /** `'{0:d}'.format(n)` spells `n` in decimal, with no leading zero. */
  lemma {:induction false} DecimalValue(n: nat)
    ensures IsDigits(Decimal(n)) && DigitsValue(Decimal(n)) == n
    ensures |Decimal(n)| > 1 ==> Decimal(n)[0] != '0'
    decreases n
  {
    var r := Decimal(n);
    if n < 10 {
      assert r[..0] == [];
    } else {
      var q := Decimal(n / 10);
      DecimalValue(n / 10);
      assert r[..|r| - 1] == q;
      assert r[0] == q[0];
      if |q| == 1 {
        assert DigitsValue(q) == q[0] as int - '0' as int by {
          assert q[..0] == [];
        }
      }
    }
  }

  /** A space splits the words on its left from the words on its right. */
  lemma {:induction false} SplitAtSpace(a: string, c: char, b: string)
    requires IsSpace(c)
    ensures Split(a + [c] + b) == Split(a) + Split(b)
    decreases |a|
  {
    var s := a + [c] + b;
    if a == [] {
      assert s[1..] == b;
    } else if IsSpace(a[0]) {
      assert s[0] == a[0];
      assert s[1..] == a[1..] + [c] + b;
      SplitAtSpace(a[1..], c, b);
    } else {
      SplitAtSpace(a[TokenLength(a)..], c, b);
      SplitAtSpaceAfterToken(a, c, b);
    }
  }

  /** Appending a space and more text does not change where the first token ends. */
  lemma TokenLengthBeforeSpace(a: string, c: char, b: string)
    requires IsSpace(c)
    ensures var n := TokenLength(a);
      TokenLength(a + [c] + b) == n && (a + [c] + b)[..n] == a[..n] && (a + [c] + b)[n..] == a[n..] + [c] + b
  {
    var n := TokenLength(a);
    var t, rest := a[..n], a[n..];
    assert a == t + rest;
    assert a + [c] + b == t + (rest + [c] + b);
    TokenLengthOf(t, rest + [c] + b);
  }

  /** The step of `SplitAtSpace` past the first token of `a`. */
  lemma SplitAtSpaceAfterToken(a: string, c: char, b: string)
    requires IsSpace(c) && a != [] && !IsSpace(a[0])
    requires Split(a[TokenLength(a)..] + [c] + b) == Split(a[TokenLength(a)..]) + Split(b)
    ensures Split(a + [c] + b) == Split(a) + Split(b)
  {
    TokenLengthBeforeSpace(a, c, b);
    var s := a + [c] + b;
    assert s[0] == a[0];
    var n := TokenLength(a);
    assert Split(s) == [a[..n]] + (Split(a[n..]) + Split(b));
  }

  /** A non-empty run of visible ASCII characters is a token. */
  lemma VisibleAsciiIsToken(t: string)
    requires t != [] && forall i :: 0 <= i < |t| ==> '!' <= t[i] <= '~'
    ensures IsToken(t)
  {
  }

  /** A single token splits to itself. */
  lemma SplitOfToken(t: string)
    requires IsToken(t)
    ensures Split(t) == [t]
  {
    SplitJoin([t]);
  }

  /** The words of each piece, in order. */
  function SplitEach(ws: seq<string>): seq<string>
  {
    if ws == [] then [] else Split(ws[0]) + SplitEach(ws[1..])
  }

  /**
   * Splitting pieces joined by single spaces gives the words of each piece in
   * turn: a piece that holds whitespace falls apart into several words, an
   * empty or all-whitespace piece gives none.
   */
  lemma {:induction false} SplitOfJoin(ws: seq<string>)
    ensures Split(JoinWithSpaces(ws)) == SplitEach(ws)
    decreases |ws|
  {
    if |ws| == 1 {
      assert SplitEach(ws) == Split(ws[0]) + SplitEach([]);
    } else if |ws| > 1 {
      var j := JoinWithSpaces(ws[1..]);
      assert ws[0] + " " + j == ws[0] + [' '] + j;
      SplitAtSpace(ws[0], ' ', j);
      SplitOfJoin(ws[1..]);
    }
  }

  lemma SplitEachFrom(ws: seq<string>, k: nat)
    requires k < |ws|
    ensures SplitEach(ws[k..]) == Split(ws[k]) + SplitEach(ws[k + 1..])
  {
    assert ws[k..][1..] == ws[k + 1..];
  }

  /** `SplitEach` of seven pieces, written out. */
  lemma SplitEachSeven(ws: seq<string>)
    requires |ws| == 7
    ensures SplitEach(ws) ==
      Split(ws[0]) + (Split(ws[1]) + (Split(ws[2]) + (Split(ws[3]) + (Split(ws[4]) +
      (Split(ws[5]) + Split(ws[6]))))))
  {
    assert ws[0..] == ws;
    SplitEachFrom(ws, 0);
    SplitEachFrom(ws, 1);
    SplitEachFrom(ws, 2);
    SplitEachFrom(ws, 3);
    SplitEachFrom(ws, 4);
    SplitEachFrom(ws, 5);
    SplitEachFrom(ws, 6);
    assert ws[7..] == [];
    assert Split(ws[6]) + SplitEach(ws[7..]) == Split(ws[6]);
  }
}
