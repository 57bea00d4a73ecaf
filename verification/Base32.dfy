/**
 Base32 (server/src/lib/totp.ts): `base32Encode` and `base32Decode` keep an accumulator that
 is never masked and wraps at 32 bits; they compute the unpadded base32 of section 6 of
 RFC 4648 all the same.
 */
module Base32 {
  import opened Symbolic

  type bit = x: int | 0 <= x < 2

  const ALPHABET: string := "ABCDEFGHIJKLMNOPQRSTUVWXYZ234567"

  /** The character for a five-bit group, and the group for a character (-1: none). */
  function Symbol(v: int): char
    requires 0 <= v < 32
  {
    if v < 26 then ('A' as int + v) as char else ('2' as int + v - 26) as char
  }

  function IndexOf(c: char): int {
    if 'A' <= c <= 'Z' then c as int - 'A' as int
    else if '2' <= c <= '7' then 26 + (c as int - '2' as int)
    else -1
  }

  lemma AlphabetSpelled()
    ensures |ALPHABET| == 32
    ensures forall v :: 0 <= v < 32 ==> ALPHABET[v] == Symbol(v) && IndexOf(ALPHABET[v]) == v
    ensures forall c :: IndexOf(c) != -1 ==> 0 <= IndexOf(c) < 32 && ALPHABET[IndexOf(c)] == c
  {
    assert ALPHABET == [Symbol(0), Symbol(1), Symbol(2), Symbol(3), Symbol(4), Symbol(5), Symbol(6), Symbol(7),
                        Symbol(8), Symbol(9), Symbol(10), Symbol(11), Symbol(12), Symbol(13), Symbol(14), Symbol(15),
                        Symbol(16), Symbol(17), Symbol(18), Symbol(19), Symbol(20), Symbol(21), Symbol(22), Symbol(23),
                        Symbol(24), Symbol(25), Symbol(26), Symbol(27), Symbol(28), Symbol(29), Symbol(30), Symbol(31)];
  }

  // ---- Bit strings ----

  function Pow2(n: nat): (p: nat)
    ensures p > 0
  {
    if n == 0 then 1 else 2 * Pow2(n - 1)
  }

  /** The number whose binary digits, most significant first, are `b`. */
  function Num(b: seq<bit>): (v: nat)
    ensures v < Pow2(|b|)
  {
    if b == [] then 0 else 2 * Num(b[..|b| - 1]) + b[|b| - 1]
  }

  /** The `n` low-order binary digits of `v`, most significant first. */
  function Bits(v: nat, n: nat): (b: seq<bit>)
    ensures |b| == n
  {
    if n == 0 then [] else Bits(v / 2, n - 1) + [v % 2]
  }

  lemma {:induction false} NumOfBits(v: nat, n: nat)
    requires v < Pow2(n)
    ensures Num(Bits(v, n)) == v
  {
    if n != 0 {
      NumOfBits(v / 2, n - 1);
      hide Num, Bits, Pow2;
      BitsSnoc(v / 2, v % 2, n - 1);
      NumSnoc(Bits(v / 2, n - 1), v % 2);
    }
  }

  lemma {:induction false} BitsOfNum(b: seq<bit>)
    ensures Bits(Num(b), |b|) == b
  {
    if b != [] {
      var b', x := b[..|b| - 1], b[|b| - 1];
      hide Bits, Pow2;
      BitsOfNum(b');
      BitsSnoc(Num(b'), x, |b'|);
      assert b == b' + [x];
    }
  }

  lemma BitsSnoc(v: nat, x: bit, n: nat)
    ensures Bits(2 * v + x, n + 1) == Bits(v, n) + [x]
  {
    assert (2 * v + x) / 2 == v && (2 * v + x) % 2 == x;
  }

  lemma Associate(a: int, b: int, c: int)
    ensures a * (b * c) == (a * b) * c == (b * a) * c
  {
  }

  lemma NumSnoc(b: seq<bit>, x: bit)
    ensures Num(b + [x]) == 2 * Num(b) + x && Pow2(|b| + 1) == 2 * Pow2(|b|)
    ensures Num([]) == 0 && Pow2(0) == 1
  {
    assert (b + [x])[..|b|] == b;
  }

  lemma {:induction false} NumConcat(a: seq<bit>, b: seq<bit>)
    ensures Num(a + b) == Num(a) * Pow2(|b|) + Num(b)
  {
    hide Num, Pow2;
    if b == [] {
      assert a + b == a;
      NumSnoc([], 0);
    } else {
      var b' := b[..|b| - 1];
      NumConcat(a, b');
      assert a + b == (a + b') + [b[|b| - 1]] && b == b' + [b[|b| - 1]];
      NumSnoc(a + b', b[|b| - 1]);
      NumSnoc(b', b[|b| - 1]);
      Associate(2, Num(a), Pow2(|b'|));
      Associate(Num(a), 2, Pow2(|b'|));
    }
  }

  lemma {:induction false} PowPlus(m: nat, n: nat)
    ensures Pow2(m + n) == Pow2(m) * Pow2(n)
  {
    if m != 0 {
      PowPlus(m - 1, n);
      assert 2 * (Pow2(m - 1) * Pow2(n)) == (2 * Pow2(m - 1)) * Pow2(n);
    }
  }

  lemma Powers()
    ensures Pow2(5) == 32 && Pow2(8) == 256 && Pow2(32) == U32_LIMIT
  {
    assert Pow2(4) == 16 by { assert Pow2(2) == 4; }
    PowPlus(4, 4);
    PowPlus(8, 8);
    PowPlus(16, 16);
  }

  // ---- RFC 4648, section 6 ----

  /** The input as a string of bits. */
  function Stream(data: seq<byte>): (s: seq<bit>)
    ensures |s| == 8 * |data|
  {
    if data == [] then [] else Stream(data[..|data| - 1]) + Bits(data[|data| - 1], 8)
  }

  /** Five-bit groups from the left, zero bits completing the last one. */
  function Groups(s: seq<bit>): string
    decreases |s|
  {
    if s == [] then ""
    else if |s| < 5 then Powers(); [Symbol(Num(s + Repeat<bit>(0, 5 - |s|)))]
    else Powers(); [Symbol(Num(s[..5]))] + Groups(s[5..])
  }

  /** Unpadded base32. */
  function EncodeSpec(data: seq<byte>): string { Groups(Stream(data)) }

  /** The bits behind a string of alphabet characters. */
  function TextStream(text: string): (s: seq<bit>)
    requires Spelled(text)
    ensures |s| == 5 * |text|
  {
    if text == "" then []
    else TextStream(text[..|text| - 1]) + Bits(IndexOf(text[|text| - 1]), 5)
  }

  predicate Spelled(text: string) {
    forall i :: 0 <= i < |text| ==> IndexOf(text[i]) != -1
  }

  /** Whole bytes from the left; fewer than eight bits at the end are dropped. */
  function Octets(s: seq<bit>): seq<byte>
    decreases |s|
  {
    if |s| < 8 then [] else Powers(); [Num(s[..8])] + Octets(s[8..])
  }

  /** `\s` of a regular expression. */
  function IsSpace(c: char): bool {
    || '\t' <= c <= '\r' || c == ' ' || c == '\U{A0}' || c == '\U{1680}' || '\U{2000}' <= c <= '\U{200A}'
    || c == '\U{2028}' || c == '\U{2029}' || c == '\U{202F}' || c == '\U{205F}' || c == '\U{3000}' || c == '\U{FEFF}'
  }

  /** `toUpperCase` of one character.  Beyond ASCII these ten become letters of the alphabet;
      what becomes of any other is not in the alphabet either, and is no white space. */
  function UpperOf(c: char): string {
    if 'a' <= c <= 'z' then [(c as int - 32) as char]
    else if c == '\U{DF}' then "SS"
    else if c == '\U{131}' then "I"
    else if c == '\U{17F}' then "S"
    else if c == '\U{FB00}' then "FF"
    else if c == '\U{FB01}' then "FI"
    else if c == '\U{FB02}' then "FL"
    else if c == '\U{FB03}' then "FFI"
    else if c == '\U{FB04}' then "FFL"
    else if c == '\U{FB05}' || c == '\U{FB06}' then "ST"
    else [c]
  }

  function Upper(s: string): string {
    if s == "" then "" else UpperOf(s[0]) + Upper(s[1..])
  }

  function StripPadding(s: string): string {
    if s != "" && s[|s| - 1] == '=' then StripPadding(s[..|s| - 1]) else s
  }

  function StripSpaces(s: string): string {
    if s == "" then "" else (if IsSpace(s[0]) then "" else [s[0]]) + StripSpaces(s[1..])
  }

  /** Upper case, trailing `=` removed, then white space removed, in this order. */
  function Clean(s: string): string { StripSpaces(StripPadding(Upper(s))) }

  /** `None` is the exception for a character outside the alphabet. */
  function DecodeSpec(input: string): Option<seq<byte>> {
    var text := Clean(input);
    if Spelled(text) then Some(Octets(TextStream(text))) else None
  }

  // ---- Round trip ----

  lemma {:induction false} GroupsSpelled(s: seq<bit>)
    ensures Spelled(Groups(s))
    ensures |Groups(s)| == (|s| + 4) / 5
    decreases |s|
  {
    if |s| >= 5 { GroupsSpelled(s[5..]); }
  }

  lemma {:induction false} TextStreamConcat(a: string, b: string)
    requires Spelled(a) && Spelled(b)
    ensures Spelled(a + b) && TextStream(a + b) == TextStream(a) + TextStream(b)
    decreases |b|
  {
    hide IndexOf, Bits;
    if b == "" {
      assert a + b == a;
    } else {
      var b' := b[..|b| - 1];
      TextStreamConcat(a, b');
      assert (a + b)[..|a + b| - 1] == a + b';
    }
  }

  lemma SymbolStream(s: seq<bit>)
    requires |s| == 5
    ensures Num(s) < 32
    ensures Spelled([Symbol(Num(s))]) && TextStream([Symbol(Num(s))]) == s
  {
    Powers();
    BitsOfNum(s);
    var t := [Symbol(Num(s))];
    assert t[..0] == "";
    assert TextStream(t) == [] + Bits(IndexOf(t[0]), 5);
  }

  /** The zero bits that complete the last group. */
  function Padding(n: nat): nat { (5 - n % 5) % 5 }

  /** Reading the groups back gives the stream and the zero bits that completed it. */
  lemma {:induction false} TextStreamOfGroups(s: seq<bit>)
    ensures Spelled(Groups(s))
    ensures TextStream(Groups(s)) == s + Repeat<bit>(0, Padding(|s|))
    decreases |s|
  {
    hide TextStream, Spelled, Num, Symbol, Groups, Padding;
    if |s| < 5 {
      ShortTextStream(s);
    } else {
      TextStreamOfGroups(s[5..]);
      PaddingOf(|s|);
      GroupThenRest(s[..5], s[5..], Repeat<bit>(0, Padding(|s|)));
      assert s == s[..5] + s[5..];
    }
  }

  lemma PaddingOf(n: nat)
    ensures n >= 5 ==> Padding(n) == Padding(n - 5)
    ensures n < 5 ==> Padding(n) == if n == 0 then 0 else 5 - n
  {
  }

  lemma ShortTextStream(s: seq<bit>)
    requires |s| < 5
    ensures Spelled(Groups(s)) && TextStream(Groups(s)) == s + Repeat<bit>(0, Padding(|s|))
  {
    hide TextStream, Spelled, Num, Symbol, Groups, Padding;
    PaddingOf(|s|);
    if s == [] {
      EmptyText();
    } else {
      LastGroup(s);
      SymbolStream(s + Repeat<bit>(0, 5 - |s|));
    }
  }

  lemma EmptyText()
    ensures Spelled(Groups([])) && TextStream(Groups([])) == []
  {
  }

  lemma GroupThenRest(g: seq<bit>, s: seq<bit>, z: seq<bit>)
    requires |g| == 5 && Spelled(Groups(s)) && TextStream(Groups(s)) == s + z
    ensures Spelled(Groups(g + s)) && TextStream(Groups(g + s)) == g + s + z
  {
    hide TextStream, Spelled, Num, Symbol, Groups;
    GroupsConcat(g, s);
    OneGroup(g);
    SymbolStream(g);
    TextStreamConcat([Symbol(Num(g))], Groups(s));
    assert g + (s + z) == g + s + z;
  }

  lemma GroupsCons(g: seq<bit>, s: seq<bit>)
    requires |g| == 5
    ensures Num(g) < 32 && Groups(g + s) == [Symbol(Num(g))] + Groups(s)
    ensures Groups([]) == ""
  {
    hide Num, Symbol;
    Powers();
    assert (g + s)[..5] == g && (g + s)[5..] == s;
  }

  lemma {:induction false} GroupsConcat(a: seq<bit>, b: seq<bit>)
    requires |a| % 5 == 0
    ensures Groups(a + b) == Groups(a) + Groups(b)
    decreases |a|
  {
    hide Num, Symbol, Groups;
    if a == [] {
      assert a + b == b;
      GroupsCons(Repeat<bit>(0, 5), b);
    } else {
      var g, s := a[..5], a[5..];
      assert a == g + s && a + b == g + (s + b);
      GroupsConcat(s, b);
      GroupsCons(g, s);
      GroupsCons(g, s + b);
    }
  }

  lemma {:induction false} OctetsConcat(a: seq<bit>, b: seq<bit>)
    requires |a| % 8 == 0
    ensures Octets(a + b) == Octets(a) + Octets(b)
    decreases |a|
  {
    hide Num;
    if a == [] {
      assert a + b == b;
    } else {
      assert (a + b)[..8] == a[..8] && (a + b)[8..] == a[8..] + b;
      OctetsConcat(a[8..], b);
    }
  }

  lemma OctetsOfByte(v: byte, z: seq<bit>)
    requires |z| < 8
    ensures Octets(Bits(v, 8) + z) == [v]
  {
    Powers();
    NumOfBits(v, 8);
    assert (Bits(v, 8) + z)[..8] == Bits(v, 8) && (Bits(v, 8) + z)[8..] == z;
  }

  lemma {:induction false} OctetsOfStream(data: seq<byte>, z: seq<bit>)
    requires |z| < 8
    ensures Octets(Stream(data) + z) == data
    decreases |data|
  {
    if data == [] {
      assert Stream(data) + z == z;
    } else {
      var n := |data| - 1;
      var a := Stream(data[..n]);
      assert Stream(data) + z == a + (Bits(data[n], 8) + z);
      OctetsConcat(a, Bits(data[n], 8) + z);
      OctetsOfByte(data[n], z);
      OctetsOfStream(data[..n], []);
      assert a + [] == a;
      assert data == data[..n] + [data[n]];
    }
  }

  lemma {:induction false} CleanKeepsSpelled(s: string)
    requires Spelled(s)
    ensures Upper(s) == s && StripPadding(s) == s && StripSpaces(s) == s
  {
    hide UpperOf, IsSpace, IndexOf;
    if s != "" {
      CleanKeepsSpelled(s[1..]);
      assert s == [s[0]] + s[1..];
      SpelledKept(s[0]);
      SpelledKept(s[|s| - 1]);
    }
  }

  lemma SpelledKept(c: char)
    requires IndexOf(c) != -1
    ensures UpperOf(c) == [c] && !IsSpace(c) && c != '='
  {
  }

  /** Decoding what was encoded gives the input back, for every byte string. */
  lemma RoundTrip(data: seq<byte>)
    ensures DecodeSpec(EncodeSpec(data)) == Some(data)
  {
    var s := Stream(data);
    TextStreamOfGroups(s);
    CleanKeepsSpelled(Groups(s));
    OctetsOfStream(data, Repeat<bit>(0, Padding(|s|)));
  }

  // ---- What decoding looks past ----

  /** The two are one letter but for its case, or one character. */
  predicate SameLetter(x: char, y: char) {
    || x == y
    || ('a' <= x <= 'z' && y as int == x as int - 32)
    || ('a' <= y <= 'z' && x as int == y as int - 32)
  }

  lemma {:induction false} UpperFolds(a: string, b: string)
    requires |a| == |b| && forall i :: 0 <= i < |a| ==> SameLetter(a[i], b[i])
    ensures Upper(a) == Upper(b)
  {
    if a != [] {
      assert forall i :: 0 <= i < |a[1..]| ==> a[1..][i] == a[i + 1] && b[1..][i] == b[i + 1];
      UpperFolds(a[1..], b[1..]);
      assert UpperOf(a[0]) == UpperOf(b[0]);
    }
  }

  /** Letter case does not matter. */
  lemma CaseIgnored(a: string, b: string)
    requires |a| == |b| && forall i :: 0 <= i < |a| ==> SameLetter(a[i], b[i])
    ensures DecodeSpec(a) == DecodeSpec(b)
  {
    hide DecodeSpec, StripPadding, StripSpaces, Upper;
    UpperFolds(a, b);
    CleanDecides(a, b);
  }

  lemma {:induction false} UpperConcat(a: string, b: string)
    ensures Upper(a + b) == Upper(a) + Upper(b)
  {
    hide UpperOf;
    if a == "" {
      assert a + b == b;
    } else {
      UpperConcat(a[1..], b);
      assert (a + b)[1..] == a[1..] + b;
      Regroup(UpperOf(a[0]), Upper(a[1..]), Upper(b));
    }
  }

  lemma {:induction false} StripConcat(a: string, b: string)
    ensures StripSpaces(a + b) == StripSpaces(a) + StripSpaces(b)
  {
    hide IsSpace;
    if a == "" {
      assert a + b == b;
    } else {
      StripConcat(a[1..], b);
      assert (a + b)[1..] == a[1..] + b && (a + b)[0] == a[0];
      Regroup(if IsSpace(a[0]) then "" else [a[0]], StripSpaces(a[1..]), StripSpaces(b));
    }
  }

  lemma UpperOne(c: char)
    ensures Upper([c]) == UpperOf(c)
  {
    assert [c][1..] == "";
    assert Upper("") == "";
  }

  /** Trailing padding does not matter. */
  lemma PaddingIgnored(text: string)
    ensures DecodeSpec(text + "=") == DecodeSpec(text)
  {
    assert UpperOf('=') == "=";
    hide Upper, UpperOf, StripSpaces, DecodeSpec;
    UpperConcat(text, "=");
    UpperOne('=');
    var u := Upper(text);
    assert (u + "=")[..|u + "="| - 1] == u;
    assert StripPadding(u + "=") == StripPadding(u);
    CleanDecides(text + "=", text);
  }

  /** Which characters are white space. */
  lemma SpacesListed()
    ensures IsSpace(' ') && IsSpace('\t') && IsSpace('\n') && IsSpace('\U{B}') && IsSpace('\U{C}') && IsSpace('\r')
    ensures IsSpace('\U{A0}') && IsSpace('\U{1680}') && IsSpace('\U{2028}') && IsSpace('\U{2029}') && IsSpace('\U{202F}')
    ensures IsSpace('\U{205F}') && IsSpace('\U{3000}') && IsSpace('\U{FEFF}')
    ensures forall c :: '\U{2000}' <= c <= '\U{200A}' ==> IsSpace(c)
    ensures forall c :: IsSpace(c) ==> UpperOf(c) == [c] && c != '=' && IndexOf(c) == -1
  {
  }

  lemma UpperLast(c: char)
    requires c != '='
    ensures UpperOf(c) != "" && UpperOf(c)[|UpperOf(c)| - 1] != '='
  {
  }

  lemma UpperEnds(b: string)
    requires b != "" && b[|b| - 1] != '='
    ensures Upper(b) != "" && Upper(b)[|Upper(b)| - 1] != '='
  {
    hide UpperOf, Upper;
    var n := |b| - 1;
    assert b == b[..n] + [b[n]];
    UpperConcat(b[..n], [b[n]]);
    UpperOne(b[n]);
    UpperLast(b[n]);
  }

  /** The cleaned text alone is decoded. */
  lemma CleanDecides(a: string, b: string)
    requires Clean(a) == Clean(b)
    ensures DecodeSpec(a) == DecodeSpec(b)
  {
    hide Clean, TextStream, Octets;
  }

  lemma StripOne(c: char)
    ensures StripSpaces([c]) == if IsSpace(c) then "" else [c]
  {
    hide IsSpace;
    assert [c][1..] == "" && StripSpaces("") == "";
  }

  lemma Unpadded(x: string, y: string)
    requires y != "" && y[|y| - 1] != '='
    ensures StripPadding(x + y) == x + y
  {
  }

  /** White space between other characters does not matter. */
  lemma SpaceIgnored(a: string, c: char, b: string)
    requires IsSpace(c) && b != "" && b[|b| - 1] != '='
    ensures DecodeSpec(a + [c] + b) == DecodeSpec(a + b)
  {
    SpacesListed();
    UpperEnds(b);
    UpperOne(c);
    hide Upper, UpperOf, StripSpaces, StripPadding, DecodeSpec, IsSpace;
    UpperConcat(a + [c], b);
    UpperConcat(a, [c]);
    UpperConcat(a, b);
    var x, y := Upper(a), Upper(b);
    Unpadded(x + [c], y);
    Unpadded(x, y);
    StripConcat(x + [c], y);
    StripConcat(x, [c]);
    StripConcat(x, y);
    StripOne(c);
    assert StripSpaces(x) + "" == StripSpaces(x);
    CleanDecides(a + [c] + b, a + b);
  }

  /** Padding is stripped before white space: a space behind the padding makes it an error. */
  lemma SpaceBehindPadding(text: string)
    ensures DecodeSpec(text + "= ") == None
  {
    SpacesListed();
    hide TextStream, Octets, UpperOf, IsSpace;
    UpperPadded(text);
    var x := Upper(text);
    hide Upper;
    assert StripPadding(x + "= ") == x + "= ";
    assert "= " == ['='] + [' '];
    StripConcat(x, "= ");
    StripConcat(['='], [' ']);
    StripOne('=');
    StripOne(' ');
    hide StripSpaces;
    var t := Clean(text + "= ");
    assert t == StripSpaces(x) + "=";
    assert t[|t| - 1] == '=' && IndexOf('=') == -1;
  }

  lemma UpperPadded(text: string)
    ensures Upper(text + "= ") == Upper(text) + "= "
  {
    assert UpperOf('=') == "=" && UpperOf(' ') == " ";
    UpperOne('=');
    UpperOne(' ');
    hide Upper, UpperOf;
    assert "= " == ['='] + [' '];
    UpperConcat(['='], [' ']);
    UpperConcat(text, "= ");
  }

  // ---- The accumulator ----

  lemma DivModUnique(a: int, d: int, q: int, r: int)
    requires d > 0 && a == d * q + r && 0 <= r < d
    ensures a / d == q && a % d == r
  {
    var q', r' := a / d, a % d;
    assert d * (q - q') == r' - r;
    assert q - q' >= 1 ==> d * (q - q') >= d;
    assert q - q' <= -1 ==> d * (q - q') <= -d;
  }

  /** The low bits of the accumulator are the pending bits, whatever lies above them. */
  predicate Holds(value: u32, pending: seq<bit>) { value % Pow2(|pending|) == Num(pending) }

  /** `(value << k) | x` on 32 bits: the shifted-out bits are lost, the low ones are free. */
  function ShiftIn(value: u32, k: nat, x: nat): int { value * Pow2(k) % U32_LIMIT + x }

  lemma DivMod(v: int, d: int)
    requires d > 0
    ensures v == d * (v / d) + v % d && 0 <= v % d < d
  {
  }

  lemma Distribute(a: int, b: int, c: int)
    ensures a * (b + c) == a * b + a * c
  {
  }

  lemma ProductBound(p: int, n: int, k: int, x: int)
    requires 0 <= p < n && 0 <= x < k
    ensures 0 <= k * p + x < k * n
  {
    Distribute(k, n - 1 - p, p + 1);
    assert k * (n - 1 - p) >= 0;
    Distribute(k, p, 1);
  }

  /** Scaling commutes with the wrap-around. */
  lemma ScaleMod(v: nat, k: nat, r: nat)
    requires k > 0 && r > 0
    ensures k * r > 0 && (v * k) % (k * r) == k * (v % r)
  {
    var q, w := v / r, v % r;
    DivMod(v, r);
    ProductBound(w, r, k, 0);
    assert v * k == (k * r) * q + k * w by {
      Distribute(k, r * q, w);
      Associate(k, r, q);
    }
    DivModUnique(v * k, k * r, q, k * w);
  }

  /** A remainder by a multiple keeps the remainder by the divisor. */
  lemma ModOfMod(v: nat, n: nat, t: nat)
    requires n > 0 && t > 0
    ensures n * t > 0 && (v % (n * t)) % n == v % n
  {
    assert n * t > 0 by { ProductBound(0, t, n, 0); }
    var q, w := v / (n * t), v % (n * t);
    DivMod(v, n * t);
    DivMod(w, n);
    Associate(n, t, q);
    Distribute(n, t * q, w / n);
    DivModUnique(v, n, t * q + w / n, w % n);
  }

  /** A remainder seen through a shift by `k` and an addition below `k`. */
  lemma ShiftMod(w: nat, n: nat, k: nat, x: nat)
    requires n > 0 && x < k
    ensures k * n > 0 && (k * w + x) % (k * n) == k * (w % n) + x
  {
    DivMod(w, n);
    ProductBound(w % n, n, k, x);
    Associate(k, n, w / n);
    Distribute(k, n * (w / n), w % n);
    DivModUnique(k * w + x, k * n, w / n, k * (w % n) + x);
  }

  lemma SplitMod(v: nat, j: nat, p: nat, x: nat, y: nat)
    requires j > 0 && p > 0 && x < j && y < p
    requires j * p > 0 && v % (j * p) == x * p + y
    ensures (v / p) % j == x && v % p == y
  {
    var q := v / (j * p);
    DivMod(v, j * p);
    Associate(p, j, q);
    Distribute(p, j * q, x);
    DivModUnique(v, p, j * q + x, y);
    DivModUnique(j * q + x, j, q, x);
  }

  /** The wrapped shift is the exact shift of the bits that are not pushed out. */
  lemma ShiftInExact(value: u32, k: nat, x: nat)
    requires k <= 32 && x < Pow2(k)
    ensures ShiftIn(value, k, x) == Pow2(k) * (value % Pow2(32 - k)) + x
    ensures 0 <= ShiftIn(value, k, x) < U32_LIMIT
  {
    hide Pow2;
    Powers();
    PowPlus(k, 32 - k);
    ScaleMod(value, Pow2(k), Pow2(32 - k));
    ProductBound(value % Pow2(32 - k), Pow2(32 - k), Pow2(k), x);
  }

  /** Shifting in appends to the pending bits although the accumulator wraps. */
  lemma ShiftInHolds(value: u32, pending: seq<bit>, k: nat, x: nat)
    requires Holds(value, pending) && |pending| + k <= 32 && x < Pow2(k)
    ensures 0 <= ShiftIn(value, k, x) < U32_LIMIT
    ensures Holds(ShiftIn(value, k, x), pending + Bits(x, k))
  {
    hide Pow2, Num, Bits, ShiftIn;
    ShiftInMod(value, |pending|, k, x);
    AppendHolds(ShiftIn(value, k, x), pending, k, x);
  }

  lemma ShiftInMod(value: u32, n: nat, k: nat, x: nat)
    requires n + k <= 32 && x < Pow2(k)
    ensures 0 <= ShiftIn(value, k, x) < U32_LIMIT
    ensures ShiftIn(value, k, x) % Pow2(n + k) == Pow2(k) * (value % Pow2(n)) + x
  {
    hide Pow2, ShiftIn;
    ShiftInExact(value, k, x);
    PowPlus(k, n);
    PowPlus(n, 32 - k - n);
    ModOfMod(value, Pow2(n), Pow2(32 - k - n));
    ShiftMod(value % Pow2(32 - k), Pow2(n), Pow2(k), x);
  }

  lemma AppendHolds(value: u32, pending: seq<bit>, k: nat, x: nat)
    requires x < Pow2(k) && value % Pow2(|pending| + k) == Pow2(k) * Num(pending) + x
    ensures Holds(value, pending + Bits(x, k))
  {
    hide Pow2, Num, Bits;
    var p := pending + Bits(x, k);
    assert Num(p) == Num(pending) * Pow2(k) + x by {
      NumConcat(pending, Bits(x, k));
      NumOfBits(x, k);
    }
    assert Num(pending) * Pow2(k) == Pow2(k) * Num(pending);
    assert |p| == |pending| + k;
  }

  /** Reading the top `j` pending bits leaves the others pending. */
  lemma TopBits(value: u32, pending: seq<bit>, j: nat)
    requires Holds(value, pending) && j <= |pending|
    ensures value / Pow2(|pending| - j) % Pow2(j) == Num(pending[..j])
    ensures Holds(value, pending[j..])
  {
    hide Pow2, Num;
    PowPlus(j, |pending| - j);
    assert pending == pending[..j] + pending[j..];
    NumConcat(pending[..j], pending[j..]);
    SplitMod(value, Pow2(j), Pow2(|pending| - j), Num(pending[..j]), Num(pending[j..]));
  }

  lemma {:induction false} BitsOfZero(k: nat)
    ensures Bits(0, k) == Repeat<bit>(0, k)
  {
    if k != 0 {
      BitsOfZero(k - 1);
      assert Repeat<bit>(0, k) == Repeat<bit>(0, k - 1) + [0];
    }
  }

  lemma OneGroup(g: seq<bit>)
    requires |g| == 5
    ensures Num(g) < 32 && Groups(g) == [Symbol(Num(g))]
  {
    hide Num, Symbol;
    GroupsCons(g, []);
    assert g + [] == g;
  }

  lemma LastGroup(s: seq<bit>)
    requires 0 < |s| < 5
    ensures Num(s + Repeat<bit>(0, 5 - |s|)) < 32
    ensures Groups(s) == [Symbol(Num(s + Repeat<bit>(0, 5 - |s|)))]
  {
    Powers();
  }

  lemma OneOctet(g: seq<bit>)
    requires |g| == 8
    ensures Num(g) < 256 && Octets(g) == [Num(g)]
  {
    hide Num;
    Powers();
    assert g[..8] == g && g[8..] == [];
    assert Octets([]) == [];
  }

  // ---- The code ----

  /**
   How a loop stands after the bits `s`: the last `bits` of them are pending at the low end of
   the accumulator, those before make whole groups of `width` bits.
   */
  predicate Standing(s: seq<bit>, bits: nat, value: u32, width: nat) {
    && bits <= |s| && width > 0
    && (|s| - bits) % width == 0
    && Holds(value, s[|s| - bits..])
  }

  function Done(s: seq<bit>, bits: nat): seq<bit>
    requires bits <= |s|
  {
    s[..|s| - bits]
  }

  lemma StandingStart(width: nat)
    requires width > 0
    ensures Standing([], 0, 0, width) && Groups(Done([], 0)) == "" && Octets(Done([], 0)) == []
  {
  }

  /** One input symbol of `k` bits comes in. */
  lemma ShiftStands(s: seq<bit>, bits: nat, value: u32, width: nat, k: nat, x: nat)
    requires Standing(s, bits, value, width) && bits + k <= 32 && x < Pow2(k)
    ensures 0 <= ShiftIn(value, k, x) < U32_LIMIT
    ensures Standing(s + Bits(x, k), bits + k, ShiftIn(value, k, x), width)
    ensures Done(s + Bits(x, k), bits + k) == Done(s, bits)
  {
    hide Bits, Pow2, Holds, ShiftIn;
    var t := s + Bits(x, k);
    ShiftInHolds(value, s[|s| - bits..], k, x);
    assert t[|t| - (bits + k)..] == s[|s| - bits..] + Bits(x, k);
  }

  /** One output symbol goes out. */
  lemma EmitStands(s: seq<bit>, bits: nat, value: u32, width: nat)
    requires Standing(s, bits, value, width) && bits >= width
    ensures Standing(s, bits - width, value, width)
    ensures exists g :: IsGroup(s, bits, value, width, g)
  {
    hide Pow2, Holds, Num;
    var pending := s[|s| - bits..];
    TopBits(value, pending, width);
    assert pending[width..] == s[|s| - (bits - width)..];
    DropWidth(|s| - bits, width);
    assert Done(s, bits - width) == Done(s, bits) + pending[..width];
    assert IsGroup(s, bits, value, width, pending[..width]);
  }

  lemma DropWidth(a: nat, width: nat)
    requires width > 0 && a % width == 0
    ensures (a + width) % width == 0
  {
    DivMod(a, width);
    Distribute(width, a / width, 1);
    DivModUnique(a + width, width, a / width + 1, 0);
  }

  /** `g` is the group that the code reads off at the top of the pending bits. */
  predicate IsGroup(s: seq<bit>, bits: nat, value: u32, width: nat, g: seq<bit>)
    requires width <= bits <= |s|
  {
    && |g| == width
    && Done(s, bits - width) == Done(s, bits) + g
    && value / Pow2(bits - width) % Pow2(width) == Num(g)
  }

  lemma EmitSymbol(s: seq<bit>, bits: nat, value: u32)
    requires Standing(s, bits, value, 5) && bits >= 5
    ensures Standing(s, bits - 5, value, 5)
    ensures Groups(Done(s, bits - 5)) == Groups(Done(s, bits)) + [Symbol(value / Pow2(bits - 5) % 32)]
  {
    hide Pow2, Holds, Num, Groups, Symbol;
    Powers();
    EmitStands(s, bits, value, 5);
    var g :| IsGroup(s, bits, value, 5, g);
    GroupsConcat(Done(s, bits), g);
    OneGroup(g);
  }

  lemma EmitByte(s: seq<bit>, bits: nat, value: u32)
    requires Standing(s, bits, value, 8) && bits >= 8
    ensures Standing(s, bits - 8, value, 8)
    ensures Octets(Done(s, bits - 8)) == Octets(Done(s, bits)) + [value / Pow2(bits - 8) % 256]
  {
    hide Pow2, Holds, Num, Octets;
    Powers();
    EmitStands(s, bits, value, 8);
    var g :| IsGroup(s, bits, value, 8, g);
    OctetsConcat(Done(s, bits), g);
    OneOctet(g);
  }

  lemma LastSymbol(s: seq<bit>, bits: nat, value: u32)
    requires Standing(s, bits, value, 5) && bits < 5
    ensures bits == 0 ==> Groups(s) == Groups(Done(s, bits))
    ensures bits > 0 ==> Groups(s) == Groups(Done(s, bits)) + [Symbol(ShiftIn(value, 5 - bits, 0) % 32)]
  {
    hide Pow2, Num, Groups, Symbol, ShiftIn, Bits;
    var pending := s[|s| - bits..];
    assert s == Done(s, bits) + pending;
    if bits == 0 {
      assert s == Done(s, bits);
    } else {
      GroupsConcat(Done(s, bits), pending);
      LastGroup(pending);
      ShiftInHolds(value, pending, 5 - bits, 0);
      BitsOfZero(5 - bits);
      Powers();
    }
  }

  lemma DropBits(s: seq<bit>, bits: nat, value: u32)
    requires Standing(s, bits, value, 8) && bits < 8
    ensures Octets(s) == Octets(Done(s, bits))
  {
    hide Num, Holds;
    assert s == Done(s, bits) + s[|s| - bits..];
    OctetsConcat(Done(s, bits), s[|s| - bits..]);
  }

  /** `base32Encode`. */
  method Encode(data: seq<byte>) returns (out: string)
    ensures out == EncodeSpec(data)
  {
    hide Num, Groups, Pow2, Bits, Symbol, ShiftIn, Standing, Done, IndexOf;
    var bits: nat, value: u32 := 0, 0;
    out := "";
    StandingStart(5);
    AlphabetSpelled();
    var i := 0;
    while i < |data|
      invariant 0 <= i <= |data| && bits < 5
      invariant Standing(Stream(data[..i]), bits, value, 5)
      invariant bits <= 8 * i && out == Groups(Done(Stream(data[..i]), bits))
    {
      Powers();
      ShiftStands(Stream(data[..i]), bits, value, 5, 8, data[i]);
      assert data[..i + 1][..i] == data[..i];
      value := ShiftIn(value, 8, data[i]);
      bits := bits + 8;
      i := i + 1;
      while bits >= 5
        invariant bits <= 8 * i && Standing(Stream(data[..i]), bits, value, 5)
        invariant out == Groups(Done(Stream(data[..i]), bits))
      {
        EmitSymbol(Stream(data[..i]), bits, value);
        out := out + [ALPHABET[value / Pow2(bits - 5) % 32]];
        bits := bits - 5;
      }
    }
    assert data[..i] == data;
    LastSymbol(Stream(data), bits, value);
    if bits > 0 {
      out := out + [ALPHABET[ShiftIn(value, 5 - bits, 0) % 32]];
    }
  }

  /** `base32Decode`. */
  method Decode(input: string) returns (r: Option<seq<byte>>)
    ensures r == DecodeSpec(input)
  {
    hide Num, Octets, Pow2, Bits, ShiftIn, Standing, Done, Clean, IndexOf;
    var text := Clean(input);
    var bits: nat, value: u32 := 0, 0;
    var out: seq<byte> := [];
    StandingStart(8);
    var i := 0;
    while i < |text|
      invariant 0 <= i <= |text| && Spelled(text[..i]) && bits < 8
      invariant Standing(TextStream(text[..i]), bits, value, 8)
      invariant bits <= 5 * i && out == Octets(Done(TextStream(text[..i]), bits))
    {
      var idx := IndexOf(text[i]);
      if idx == -1 {
        return None;
      }
      IndexRange(text[i]);
      ShiftStands(TextStream(text[..i]), bits, value, 8, 5, idx);
      assert text[..i + 1][..i] == text[..i];
      value := ShiftIn(value, 5, idx);
      bits := bits + 5;
      i := i + 1;
      if bits >= 8 {
        EmitByte(TextStream(text[..i]), bits, value);
        out := out + [value / Pow2(bits - 8) % 256];
        bits := bits - 8;
      }
    }
    assert text[..i] == text;
    DropBits(TextStream(text), bits, value);
    r := Some(out);
  }

  lemma IndexRange(c: char)
    requires IndexOf(c) != -1
    ensures 0 <= IndexOf(c) < 32 == Pow2(5)
  {
    Powers();
  }
}
