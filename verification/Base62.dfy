/** The short code of an ID: internal/shortcode/base62.go. */
module Base62 {
  import opened Int64
  import opened Wrappers

  const ALPHABET: string := "0123456789" + "ABCDEFGHIJKLMNOPQRSTUVWXYZ" + "abcdefghijklmnopqrstuvwxyz"
  const BASE: int := 62

  datatype DecodeError = Empty | InvalidSymbol(symbol: char)

  // ---------- the alphabet ----------

  /** ALPHABET[d], by ranges (see SymbolIsAlphabet). */
  function Symbol(d: int): char
    requires 0 <= d < BASE
  {
    if d < 10 then '0' + d as char
    else if d < 36 then 'A' + (d - 10) as char
    else 'a' + (d - 36) as char
  }

  /** strings.IndexRune(ALPHABET, c), by ranges (see DigitIsIndexRune). */
  function Digit(c: char): (d: int)
    ensures -1 <= d < BASE
    ensures d >= 0 ==> Symbol(d) == c
  {
    if '0' <= c <= '9' then c as int - '0' as int
    else if 'A' <= c <= 'Z' then c as int - 'A' as int + 10
    else if 'a' <= c <= 'z' then c as int - 'a' as int + 36
    else -1
  }

  lemma SymbolIsAlphabet(d: int)
    requires 0 <= d < BASE
    ensures |ALPHABET| == BASE && ALPHABET[d] == Symbol(d)
  {
  }

  /** Index of the first occurrence of c in s, or -1. */
  function IndexRune(s: string, c: char): (i: int)
    ensures -1 <= i < |s|
    ensures i >= 0 ==> s[i] == c
    ensures i < 0 <==> c !in s
  {
    if s == [] then -1
    else if s[0] == c then 0
    else
      var i := IndexRune(s[1..], c);
      if i < 0 then -1 else i + 1
  }

  predicate IsTable(alphabet: string) {
    |alphabet| == BASE && forall d :: 0 <= d < BASE ==> alphabet[d] == Symbol(d)
  }

  lemma AlphabetIsTable()
    ensures IsTable(ALPHABET)
  {
    forall d | 0 <= d < BASE ensures ALPHABET[d] == Symbol(d) {
      SymbolIsAlphabet(d);
    }
    SymbolIsAlphabet(0);
  }

  lemma DigitIsIndexRune(alphabet: string, c: char)
    requires IsTable(alphabet)
    ensures IndexRune(alphabet, c) == Digit(c)
  {
    var i, d := IndexRune(alphabet, c), Digit(c);
    if d >= 0 {
      assert alphabet[d] == c;
    }
    if i >= 0 {
      assert Symbol(i) == c;
    }
  }

  predicate Alphanumeric(c: char) {
    '0' <= c <= '9' || 'A' <= c <= 'Z' || 'a' <= c <= 'z'
  }

  /** The valid symbols are exactly the ASCII digits and letters. */
  lemma AlphabetIsAlphanumeric(c: char)
    ensures c in ALPHABET <==> Alphanumeric(c)
  {
    AlphabetIsTable();
    DigitIsIndexRune(ALPHABET, c);
    assert IndexRune(ALPHABET, c) < 0 <==> c !in ALPHABET;
  }

  /** The symbols are in strictly ascending byte order. */
  lemma SymbolsAscend(i: int, j: int)
    requires 0 <= i < BASE && 0 <= j < BASE
    ensures i < j <==> Symbol(i) < Symbol(j)
  {
  }

  predicate IsWord(s: string) {
    forall k :: 0 <= k < |s| ==> Digit(s[k]) >= 0
  }

  // ---------- specification of Encode and Decode ----------

  /** Base 62 digits, most significant first; empty for a negative id. */
  function Code(id: int): string
    decreases id
  {
    if id < 0 then ""
    else if id < BASE then [Symbol(id)]
    else Code(id / BASE) + [Symbol(id % BASE)]
  }

  /** The unbounded number a word stands for. */
  function Value(s: string): (n: int)
    ensures IsWord(s) ==> n >= 0
  {
    if s == [] then 0
    else
      assert IsWord(s) ==> Digit(s[|s| - 1]) >= 0 && IsWord(s[..|s| - 1]);
      Value(s[..|s| - 1]) * BASE + Digit(s[|s| - 1])
  }

  /** What Decode returns: the value modulo 2^64, or the first error met. */
  function Decoded(s: string): Result<int, DecodeError> {
    if s == [] then Err(Empty)
    else match FirstInvalid(s)
      case Some(c) => Err(InvalidSymbol(c))
      case None => Ok(Wrap(Value(s)))
  }

  function FirstInvalid(s: string): (r: Option<char>)
    ensures r == None <==> IsWord(s)
  {
    if s == [] then None
    else if Digit(s[0]) < 0 then Some(s[0])
    else
      assert IsWord(s) <==> IsWord(s[1..]) by {
        assert IsWord(s[1..]) ==> forall k :: 0 < k < |s| ==> s[1..][k - 1] == s[k];
      }
      FirstInvalid(s[1..])
  }

  // ---------- Encode ----------

  function Pow62(k: nat): (p: int)
    ensures p >= 1
  {
    if k == 0 then 1 else 62 * Pow62(k - 1)
  }

  lemma Pow62Eleven()
    ensures Pow62(10) < TWO63 < Pow62(11)
  {
    assert Pow62(3) == 62 * (62 * 62);
    assert Pow62(6) == 62 * (62 * (62 * Pow62(3)));
    assert Pow62(9) == 62 * (62 * (62 * Pow62(6)));
    assert Pow62(11) == 62 * (62 * Pow62(9));
  }

  /** What is still to be written for the remaining number: nothing at zero. */
  function Prefix(rest: int): string {
    if rest <= 0 then "" else Code(rest)
  }

  function Reversed(s: string): (r: string)
    ensures |r| == |s|
    ensures forall k :: 0 <= k < |s| ==> r[k] == s[|s| - 1 - k]
  {
    if s == [] then [] else Reversed(s[1..]) + [s[0]]
  }

  lemma EncodeStep(rest: int)
    requires rest > 0
    ensures Prefix(rest) == Prefix(rest / BASE) + [Symbol(rest % BASE)]
  {
  }

  /** Moving one digit from the remaining number to the buffer. */
  lemma EncodeKeeps(id: int, rest: int, written: string)
    requires rest > 0 && Prefix(id) == Prefix(rest) + Reversed(written)
    ensures Prefix(id) == Prefix(rest / BASE) + Reversed(written + [Symbol(rest % BASE)])
  {
    hide Symbol, Prefix, Reversed;
    var d := Symbol(rest % BASE);
    EncodeStep(rest);
    assert Reversed(written + [d]) == [d] + Reversed(written);
    assert Prefix(rest / BASE) + [d] + Reversed(written) == Prefix(rest / BASE) + ([d] + Reversed(written));
  }

  /** Swap from both ends towards the middle, in place. */
  method ReverseInPlace(buf: array<char>, n: nat)
    requires n <= buf.Length
    modifies buf
    ensures buf[..n] == Reversed(old(buf[..n]))
    ensures buf[n..] == old(buf[n..])
  {
    var i, j := 0, n - 1;
    while i < j
      invariant 0 <= i <= n && j == n - 1 - i && i <= j + 1
      invariant forall k :: 0 <= k < i || j < k < n ==> buf[k] == old(buf[n - 1 - k])
      invariant forall k :: i <= k <= j || n <= k < buf.Length ==> buf[k] == old(buf[k])
    {
      buf[i], buf[j] := buf[j], buf[i];
      i, j := i + 1, j - 1;
    }
    assert forall k :: 0 <= k < n ==> buf[..n][k] == Reversed(old(buf[..n]))[k];
  }

  /** The digits of id, extracted from the lowest up and then reversed. */
  method Encode(id: int) returns (code: string)
    requires Fits(id)
    ensures code == Code(id)
    ensures code == "" <==> id < 0
    ensures forall k :: 0 <= k < |code| ==> Alphanumeric(code[k])
  {
    if id == 0 {
      CodeSymbols(0);
      return [Symbol(0)];
    }
    var buf := new char[11];
    var n, rest := 0, id;
    Pow62Eleven();
    assert Reversed(buf[..0]) == "";
    while rest > 0
      invariant 0 <= n <= 11
      invariant rest < Pow62(11 - n)
      invariant rest > 0 || n > 0 || id < 0
      invariant id < 0 ==> rest == id && n == 0
      invariant Prefix(id) == Prefix(rest) + Reversed(buf[..n])
      decreases rest
    {
      EncodeKeeps(id, rest, buf[..n]);
      ghost var written := buf[..n];
      buf[n] := Symbol(rest % BASE);
      assert buf[..n + 1] == written + [Symbol(rest % BASE)];
      rest := rest / BASE;
      n := n + 1;
    }
    ReverseInPlace(buf, n);
    code := buf[..n];
    CodeSymbols(id);
  }

  // ---------- Decode ----------

  lemma {:induction false} FirstInvalidAt(s: string, k: nat)
    requires k < |s| && IsWord(s[..k]) && Digit(s[k]) < 0
    ensures FirstInvalid(s) == Some(s[k])
  {
    if k > 0 {
      assert s[..k][0] == s[0];
      assert s[1..][..k - 1] == s[..k][1..];
      FirstInvalidAt(s[1..], k - 1);
    }
  }

  /** Horner's rule in wrapping int64 arithmetic, stopping at the first bad symbol. */
  method Decode(s: string) returns (r: Result<int, DecodeError>)
    ensures r == Decoded(s)
    ensures r == Err(Empty) <==> s == ""
    ensures r.Ok? <==> s != "" && forall k :: 0 <= k < |s| ==> Alphanumeric(s[k])
    ensures r.Err? && s != "" ==>
              exists k :: 0 <= k < |s| && !Alphanumeric(s[k]) && r.error == InvalidSymbol(s[k])
                          && forall j :: 0 <= j < k ==> Alphanumeric(s[j])
  {
    if s == "" {
      return Err(Empty);
    }
    var n, k := 0, 0;
    while k < |s|
      invariant 0 <= k <= |s|
      invariant IsWord(s[..k])
      invariant n == Wrap(Value(s[..k]))
    {
      var idx := Digit(s[k]);
      if idx < 0 {
        FirstInvalidAt(s, k);
        assert forall j :: 0 <= j < k ==> s[j] == s[..k][j];
        return Err(InvalidSymbol(s[k]));
      }
      assert s[..k + 1][..k] == s[..k];
      WrapMulAdd(n, Value(s[..k]), BASE, idx);
      n := Wrap(n * BASE + idx);
      k := k + 1;
    }
    assert s[..k] == s;
    return Ok(n);
  }

  // ---------- round trip ----------

  lemma {:induction false} CodeIsWord(id: int)
    ensures IsWord(Code(id))
    ensures id >= 0 ==> |Code(id)| >= 1
    decreases id
  {
    if id >= BASE {
      CodeIsWord(id / BASE);
    }
  }

  lemma CodeSymbols(id: int)
    ensures Code(id) == "" <==> id < 0
    ensures forall k :: 0 <= k < |Code(id)| ==> Alphanumeric(Code(id)[k])
  {
    CodeIsWord(id);
  }

  lemma {:induction false} ValueOfCode(id: int)
    requires id >= 0
    ensures Value(Code(id)) == id
    decreases id
  {
    var c := Code(id);
    if id >= BASE {
      ValueOfCode(id / BASE);
      assert c[..|c| - 1] == Code(id / BASE);
    } else {
      assert c[..0] == "";
    }
  }

  /** A code has k symbols exactly when 62^(k-1) <= id < 62^k. */
  lemma {:induction false} CodeLength(id: int)
    requires id > 0
    ensures |Code(id)| >= 1
    ensures Pow62(|Code(id)| - 1) <= id < Pow62(|Code(id)|)
    decreases id
  {
    if id >= BASE {
      CodeLength(id / BASE);
    } else {
      assert Pow62(0) == 1 && Pow62(1) == 62;
    }
  }

  lemma {:induction false} Pow62Monotone(j: nat, k: nat)
    requires j <= k
    ensures Pow62(j) <= Pow62(k)
    decreases k - j
  {
    if j < k {
      Pow62Monotone(j, k - 1);
    }
  }

  lemma AtMostElevenSymbols(id: int)
    requires 0 <= id < TWO63
    ensures 1 <= |Code(id)| <= 11
  {
    if id > 0 {
      CodeLength(id);
      Pow62Eleven();
      if |Code(id)| > 11 {
        Pow62Monotone(11, |Code(id)| - 1);
        assert false;
      }
    }
  }

  /** Horner prefixes never exceed the whole, so nothing wraps on the way. */
  lemma {:induction false} PrefixValue(s: string, k: nat)
    requires IsWord(s) && k <= |s|
    ensures 0 <= Value(s[..k]) <= Value(s)
    decreases |s| - k
  {
    assert s[..|s|] == s;
    if k < |s| {
      PrefixValue(s, k + 1);
      assert s[..k + 1][..k] == s[..k];
      assert Digit(s[k]) >= 0;
      assert Value(s[..k]) * BASE + Digit(s[k]) == Value(s[..k + 1]);
      assert IsWord(s[..k]);
    }
  }

  /** Every non-negative int64 comes back unchanged from 1 to 11 symbols of the
      alphabet, and no intermediate result of the decoding loop wraps. */
  lemma RoundTrip(id: int)
    requires 0 <= id < TWO63
    ensures Decoded(Code(id)) == Ok(id)
    ensures 1 <= |Code(id)| <= 11 && IsWord(Code(id))
    ensures forall k {:trigger Code(id)[..k]} :: 0 <= k <= |Code(id)| ==>
              Wrap(Value(Code(id)[..k])) == Value(Code(id)[..k]) <= id
  {
    CodeIsWord(id);
    ValueOfCode(id);
    AtMostElevenSymbols(id);
    forall k {:trigger Code(id)[..k]} | 0 <= k <= |Code(id)|
      ensures Wrap(Value(Code(id)[..k])) == Value(Code(id)[..k]) <= id
    {
      PrefixValue(Code(id), k);
    }
  }

  lemma CodeInjective(a: int, b: int)
    requires a >= 0 && b >= 0 && Code(a) == Code(b)
    ensures a == b
  {
    ValueOfCode(a);
    ValueOfCode(b);
  }

  /** Distinct int64 ids get distinct codes exactly when not both are negative:
      all negative ids share the empty code. */
  lemma CodesDistinctIff(a: int, b: int)
    requires a != b
    ensures Code(a) != Code(b) <==> a >= 0 || b >= 0
  {
    CodeIsWord(a);
    CodeIsWord(b);
    if a >= 0 && b >= 0 && Code(a) == Code(b) {
      CodeInjective(a, b);
    }
  }

  // ---------- canonical form ----------

  /** s without leading zeros, keeping one symbol. */
  function Strip(s: string): string
    requires s != []
  {
    if |s| > 1 && s[0] == '0' then Strip(s[1..]) else s
  }

  predicate Canonical(s: string) {
    s != [] && IsWord(s) && (s == "0" || s[0] != '0')
  }

  lemma {:induction false} StripAppend(p: string, c: char)
    requires p != []
    ensures Strip(p + [c]) == if Strip(p) == "0" then [c] else Strip(p) + [c]
  {
    var s := p + [c];
    if p[0] == '0' {
      assert s[1..] == p[1..] + [c];
      if |p| > 1 {
        StripAppend(p[1..], c);
      } else {
        assert p == "0" && s[1..] == [c];
      }
    }
  }

  /** Appending a digit to a positive number appends its symbol to the code. */
  lemma CodeAppend(v: int, d: int)
    requires v > 0 && 0 <= d < BASE
    ensures Code(v * BASE + d) == Code(v) + [Symbol(d)]
  {
    hide Symbol;
    DivModUnique(v * BASE + d, BASE, v, d);
  }

  /** Encoding the value of any word strips its leading zeros. */
  lemma {:induction false} CodeOfValue(s: string)
    requires s != [] && IsWord(s)
    ensures Code(Value(s)) == Strip(s)
  {
    hide Symbol, Digit;
    var p, c := s[..|s| - 1], s[|s| - 1];
    var d, v := Digit(c), Value(p);
    assert s == p + [c] && Symbol(d) == c && Value(s) == v * BASE + d;
    if p == [] {
      assert Value(s) == d && Code(d) == [c];
    } else {
      CodeOfValue(p);
      StripAppend(p, c);
      if v == 0 {
        ZeroCode(0);
        assert Code(d) == [c];
      } else {
        CodeAppend(v, d);
        assert Strip(p) != "0" by { ZeroCode(v); }
      }
    }
  }

  /** Only zero has the code "0". */
  lemma ZeroCode(id: int)
    requires id >= 0
    ensures Code(id) == "0" <==> id == 0
  {
    ValueOfCode(id);
    ValueOfCode(0);
    assert Code(0) == "0";
  }

  lemma {:induction false} StripFixes(s: string)
    requires s != []
    ensures |Strip(s)| <= |s|
    ensures Strip(s) == s <==> s == "0" || s[0] != '0'
  {
    if |s| > 1 && s[0] == '0' {
      StripFixes(s[1..]);
    }
  }

  /** Encode inverts Decode on a word exactly when the word is canonical and its
      value fits in int64. */
  lemma DecodeEncodeIff(s: string)
    requires s != [] && IsWord(s)
    ensures Decoded(s) == Ok(Wrap(Value(s)))
    ensures Value(s) < TWO63 ==> Code(Decoded(s).value) == Strip(s)
    ensures Code(Decoded(s).value) == s <==> Canonical(s) && Value(s) < TWO63
  {
    CodeOfValue(s);
    StripFixes(s);
    var n := Wrap(Value(s));
    if Value(s) >= TWO63 && Code(n) == s {
      if n >= 0 {
        ValueOfCode(n);
      }
      assert false;
    }
  }

  /** Encode is a bijection between [0, 2^63) and the canonical words below 2^63. */
  lemma {:induction false} EncodeBijective(s: string)
    requires Canonical(s) && Value(s) < TWO63
    ensures 0 <= Value(s) && Code(Value(s)) == s
    ensures forall id :: 0 <= id < TWO63 && Code(id) == s ==> id == Value(s)
  {
    CodeOfValue(s);
    StripFixes(s);
    forall id | 0 <= id < TWO63 && Code(id) == s ensures id == Value(s) {
      ValueOfCode(id);
    }
  }

  lemma {:induction false} CodeCanonical(id: int)
    requires id >= 0
    ensures Canonical(Code(id))
    decreases id
  {
    CodeIsWord(id);
    ValueOfCode(id);
    CodeOfValue(Code(id));
    StripFixes(Code(id));
  }

  // ---------- order ----------

  /** Words of equal length compared byte by byte. */
  predicate LexLess(s: string, t: string)
    requires |s| == |t|
  {
    s != [] && (s[0] < t[0] || (s[0] == t[0] && LexLess(s[1..], t[1..])))
  }

  /** Shorter words first, then byte order. */
  predicate ShortLex(s: string, t: string) {
    |s| < |t| || (|s| == |t| && LexLess(s, t))
  }

  lemma {:induction false} LexAppend(s: string, t: string, x: char, y: char)
    requires |s| == |t|
    requires LexLess(s, t) || (s == t && x < y)
    ensures LexLess(s + [x], t + [y])
  {
    if s != [] && s[0] == t[0] {
      assert (s + [x])[1..] == s[1..] + [x] && (t + [y])[1..] == t[1..] + [y];
      LexAppend(s[1..], t[1..], x, y);
    }
  }

  lemma {:induction false} LexAsymmetric(s: string, t: string)
    requires |s| == |t| && LexLess(s, t)
    ensures !LexLess(t, s)
  {
    if s[0] == t[0] {
      LexAsymmetric(s[1..], t[1..]);
    }
  }

  lemma {:induction false} CodeIncreases(a: int, b: int)
    requires 0 <= a < b
    ensures ShortLex(Code(a), Code(b))
    decreases b
  {
    if b < BASE {
      SymbolsAscend(a, b);
    } else if a < BASE {
      CodeIsWord(b / BASE);
    } else {
      var p, q := a / BASE, b / BASE;
      if p < q {
        CodeIncreases(p, q);
        if |Code(p)| == |Code(q)| {
          LexAppend(Code(p), Code(q), Symbol(a % BASE), Symbol(b % BASE));
        }
      } else {
        SymbolsAscend(a % BASE, b % BASE);
        LexAppend(Code(p), Code(q), Symbol(a % BASE), Symbol(b % BASE));
      }
    }
  }

  /** Codes sort as their ids do. */
  lemma CodeOrder(a: int, b: int)
    requires a >= 0 && b >= 0
    ensures a < b <==> ShortLex(Code(a), Code(b))
  {
    if a < b {
      CodeIncreases(a, b);
    } else {
      if b < a {
        CodeIncreases(b, a);
      }
      if |Code(a)| == |Code(b)| && LexLess(Code(a), Code(b)) {
        LexAsymmetric(Code(a), Code(b));
      }
    }
  }
}
