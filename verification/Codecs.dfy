/** Names that are safe to use as keys, and lists of bits that are packed into the characters of a short text. */
module Codecs {
  import opened Options

  /*** sanitizeName, unsanitizeName ***/

  /** Python's replace for a single character. */
  function Replace(s: string, c: char, to: string): string {
    if s == "" then "" else (if s[0] == c then to else [s[0]]) + Replace(s[1..], c, to)
  }

  function SanitizeName(name: string): string {
    Replace(Replace(Replace(Replace(Replace(name, '_', "_u_"), '/', "_s_"), '\\', "_bs_"), ':', "_c_"), ' ', "_sp_")
  }

  function CodeOf(c: char): Option<string> {
    match c
    case '_' => Some("u")
    case '/' => Some("s")
    case '\\' => Some("bs")
    case ':' => Some("c")
    case ' ' => Some("sp")
    case _ => None
  }

  function CharOf(code: string): Option<char> {
    if code == "u" then Some('_')
    else if code == "s" then Some('/')
    else if code == "bs" then Some('\\')
    else if code == "c" then Some(':')
    else if code == "sp" then Some(' ')
    else None
  }

  /** One character, sanitized on its own. */
  function Escape(c: char): string {
    if CodeOf(c).Some? then "_" + CodeOf(c).value + "_" else [c]
  }

  function EscapeAll(s: string): string {
    if s == "" then "" else Escape(s[0]) + EscapeAll(s[1..])
  }

  lemma {:induction false} ReplacePlus(s: string, t: string, c: char, to: string)
    ensures Replace(s + t, c, to) == Replace(s, c, to) + Replace(t, c, to)
  {
    if s == "" {
      assert s + t == t;
    } else {
      assert (s + t)[1..] == s[1..] + t;
      ReplacePlus(s[1..], t, c, to);
    }
  }

  lemma {:induction false} ReplaceNone(s: string, c: char, to: string)
    requires c !in s
    ensures Replace(s, c, to) == s
  {
    if s != "" {
      ReplaceNone(s[1..], c, to);
    }
  }

  /** The chain of replacements distributes over concatenation. */
  lemma SanitizePlus(s: string, t: string)
    ensures SanitizeName(s + t) == SanitizeName(s) + SanitizeName(t)
  {
    ReplacePlus(s, t, '_', "_u_");
    var s1, t1 := Replace(s, '_', "_u_"), Replace(t, '_', "_u_");
    ReplacePlus(s1, t1, '/', "_s_");
    var s2, t2 := Replace(s1, '/', "_s_"), Replace(t1, '/', "_s_");
    ReplacePlus(s2, t2, '\\', "_bs_");
    var s3, t3 := Replace(s2, '\\', "_bs_"), Replace(t2, '\\', "_bs_");
    ReplacePlus(s3, t3, ':', "_c_");
    var s4, t4 := Replace(s3, ':', "_c_"), Replace(t3, ':', "_c_");
    ReplacePlus(s4, t4, ' ', "_sp_");
  }

  lemma ReplaceChar(d: char, c: char, to: string)
    ensures Replace([d], c, to) == if d == c then to else [d]
  {
    assert [d][1..] == "";
    assert Replace("", c, to) == "";
  }

  predicate Special(c: char) {
    c == '/' || c == '\\' || c == ':' || c == ' '
  }

  /** No later replacement touches an escape. */
  lemma EscapeStays(d: char, c: char, to: string)
    requires CodeOf(d).Some? && Special(c)
    ensures Replace(Escape(d), c, to) == Escape(d)
  {
    ReplaceNone(Escape(d), c, to);
  }

  /** One step of the chain: a character that is not escaped yet is when its turn comes. */
  function Turn(c: char, x: string, d: char): string {
    if x == [c] && c == d && CodeOf(d).Some? then Escape(d) else x
  }

  lemma OneTurn(c: char, x: string, d: char)
    requires CodeOf(d).Some? && (x == [c] || (CodeOf(c).Some? && x == Escape(c) && Special(d)))
    ensures Replace(x, d, Escape(d)) == Turn(c, x, d)
  {
    if x == [c] {
      ReplaceChar(c, d, Escape(d));
    } else {
      EscapeStays(c, d, Escape(d));
    }
  }

  lemma SanitizeChar(c: char)
    ensures SanitizeName([c]) == Escape(c)
  {
    var x1 := Turn(c, [c], '_');
    var x2 := Turn(c, x1, '/');
    var x3 := Turn(c, x2, '\\');
    var x4 := Turn(c, x3, ':');
    OneTurn(c, [c], '_');
    OneTurn(c, x1, '/');
    OneTurn(c, x2, '\\');
    OneTurn(c, x3, ':');
    OneTurn(c, x4, ' ');
    assert Escape('_') == "_u_" && Escape('/') == "_s_" && Escape('\\') == "_bs_" && Escape(':') == "_c_" && Escape(' ') == "_sp_";
  }

  /** Five passes over the string do what one pass over its characters would. */
  lemma {:induction false} SanitizeIsEscape(s: string)
    ensures SanitizeName(s) == EscapeAll(s)
  {
    if s != "" {
      assert s == [s[0]] + s[1..];
      SanitizePlus([s[0]], s[1..]);
      SanitizeChar(s[0]);
      SanitizeIsEscape(s[1..]);
    }
  }

  /** The code of an escape that the string begins with. */
  function MatchAt(s: string): Option<string> {
    if |s| < 3 || s[0] != '_' then None
    else if s[2] == '_' && s[1] == 'u' then Some("u")
    else if s[2] == '_' && s[1] == 's' then Some("s")
    else if s[2] == '_' && s[1] == 'c' then Some("c")
    else if |s| > 3 && s[3] == '_' && s[1] == 'b' && s[2] == 's' then Some("bs")
    else if |s| > 3 && s[3] == '_' && s[1] == 's' && s[2] == 'p' then Some("sp")
    else None
  }

  /** Splits at the escapes, from the left: text, code, text, and so on; `text` is what precedes s in its piece. */
  function Split(text: string, s: string): seq<string>
    decreases |s|
  {
    if s == "" then [text]
    else if MatchAt(s).Some? then [text, MatchAt(s).value] + Split("", s[|MatchAt(s).value| + 2..])
    else Split(text + [s[0]], s[1..])
  }

  function Joined(pieces: seq<string>): string {
    if pieces == [] then "" else pieces[0] + Joined(pieces[1..])
  }

  /** Puts the character for each code and joins the pieces. */
  function Decoded(pieces: seq<string>): seq<string> {
    seq(|pieces|, i requires 0 <= i < |pieces| =>
      if i % 2 == 1 && CharOf(pieces[i]).Some? then [CharOf(pieces[i]).value] else pieces[i])
  }

  function UnsanitizeName(name: string): string {
    Read("", name)
  }

  lemma {:induction false} MatchEscape(c: char, rest: string)
    ensures MatchAt(Escape(c) + rest) == CodeOf(c)
    ensures CodeOf(c).Some? ==> |Escape(c)| == |CodeOf(c).value| + 2 && CharOf(CodeOf(c).value) == Some(c)
  {
    var s := Escape(c) + rest;
    if CodeOf(c).None? {
      assert s[0] == c;
    }
  }

  lemma DecodedTwo(text: string, code: string, more: seq<string>)
    requires CharOf(code).Some?
    ensures Joined(Decoded([text, code] + more)) == text + [CharOf(code).value] + Joined(Decoded(more))
  {
    var d, e := Decoded([text, code] + more), Decoded(more);
    assert d[0] == text && d[1] == [CharOf(code).value];
    assert d[1..][1..] == e;
    assert Joined(d) == d[0] + (d[1] + Joined(d[1..][1..]));
  }

  lemma SplitOne(text: string, c: char, rest: string)
    ensures Split(text, Escape(c) + rest) ==
            if CodeOf(c).Some? then [text, CodeOf(c).value] + Split("", rest) else Split(text + [c], rest)
  {
    var all := Escape(c) + rest;
    MatchEscape(c, rest);
    assert all[|Escape(c)|..] == rest;
    if CodeOf(c).None? {
      assert all[0] == c;
    }
  }

  function Read(text: string, s: string): string {
    Joined(Decoded(Split(text, s)))
  }

  lemma ReadEnd(text: string)
    ensures Read(text, "") == text
  {
    var d := Decoded([text]);
    assert d == [text] && d[1..] == [];
    assert Joined(d) == text + Joined([]);
  }

  lemma {:induction false} ReadEscaped(text: string, s: string)
    ensures Read(text, EscapeAll(s)) == text + s
    decreases |s|
  {
    if s == "" {
      ReadEnd(text);
      assert text + s == text;
    } else {
      ReadEscaped(text + [s[0]], s[1..]);
      ReadEscaped("", s[1..]);
      EscapeStep(s);
      HeadAndTail(text, s);
      ReadStep(text, s, EscapeAll(s[1..]), EscapeAll(s), text + s);
    }
  }

  lemma EscapeStep(s: string)
    requires s != ""
    ensures Escape(s[0]) + EscapeAll(s[1..]) == EscapeAll(s)
  {
  }

  lemma HeadAndTail(text: string, s: string)
    requires s != ""
    ensures text + [s[0]] + s[1..] == text + s
  {
    assert s == [s[0]] + s[1..];
  }

  lemma ReadStep(text: string, s: string, rest: string, all: string, whole: string)
    requires s != "" && all == Escape(s[0]) + rest && whole == text + [s[0]] + s[1..]
    requires Read("", rest) == "" + s[1..] && Read(text + [s[0]], rest) == text + [s[0]] + s[1..]
    ensures Read(text, all) == whole
  {
    ReadNext(text, s[0], rest, s[1..]);
  }

  lemma ReadNext(text: string, c: char, rest: string, tail: string)
    requires Read("", rest) == "" + tail && Read(text + [c], rest) == text + [c] + tail
    ensures Read(text, Escape(c) + rest) == text + [c] + tail
  {
    SplitOne(text, c, rest);
    if CodeOf(c).Some? {
      MatchEscape(c, rest);
      DecodedTwo(text, CodeOf(c).value, Split("", rest));
      assert "" + tail == tail;
    }
  }

  /** Every name comes back, although the escapes hold the character they are marked by. */
  lemma NameRoundTrip(name: string)
    ensures UnsanitizeName(SanitizeName(name)) == name
  {
    SanitizeIsEscape(name);
    ReadEscaped("", name);
  }

  /** A sanitized name has none of the characters that are not safe in a key. */
  lemma {:induction false} SanitizedIsSafe(name: string)
    ensures forall c | c in SanitizeName(name) :: c == '_' || CodeOf(c).None?
  {
    SanitizeIsEscape(name);
    if name != "" {
      SanitizedIsSafe(name[1..]);
      SanitizeIsEscape(name[1..]);
    }
  }

  /*** Bitstring ***/

  /** The letters, small and then capital, the digits, and two more. */
  function CharAt(i: nat): char
    requires i < 64
  {
    if i < 26 then ('a' as int + i) as char
    else if i < 52 then ('A' as int + (i - 26)) as char
    else if i < 62 then ('0' as int + (i - 52)) as char
    else if i == 62 then '+'
    else '/'
  }

  function IndexToChar(): (table: string)
    ensures |table| == 64 && forall i: nat | i < 64 :: table[i] == CharAt(i)
  {
    seq(64, i requires 0 <= i < 64 => CharAt(i))
  }

  function Power(k: nat): nat {
    if k == 0 then 1 else 2 * Power(k - 1)
  }

  /** The bit of value 2 to the k. */
  predicate Bit(n: nat, k: nat) {
    if k == 0 then n % 2 == 1 else Bit(n / 2, k - 1)
  }

  /** Bits as a number, the first one lowest. */
  function Number(bools: seq<bool>): nat {
    if bools == [] then 0 else (if bools[0] then 1 else 0) + 2 * Number(bools[1..])
  }

  lemma {:induction false} NumberBits(bools: seq<bool>, k: nat)
    ensures Bit(Number(bools), k) == (k < |bools| && bools[k])
  {
    if bools == [] {
      if k > 0 { NumberBits([], k - 1); }
    } else if k > 0 {
      NumberBits(bools[1..], k - 1);
      assert Number(bools) / 2 == Number(bools[1..]);
    }
  }

  lemma {:induction false} NumberMore(bools: seq<bool>, b: bool)
    ensures Number(bools + [b]) == Number(bools) + if b then Power(|bools|) else 0
  {
    if bools == [] {
      assert bools + [b] == [b] && [b][1..] == [];
      assert Number([b][1..]) == 0;
    } else {
      assert (bools + [b])[1..] == bools[1..] + [b];
      NumberMore(bools[1..], b);
    }
  }

  lemma {:induction false} NumberBelow(bools: seq<bool>)
    ensures Number(bools) < Power(|bools|)
  {
    if bools != [] {
      NumberBelow(bools[1..]);
    }
  }

  /** Up to six bits as a number, by adding a bit that doubles. */
  method PackBitstringToInt(bools: seq<bool>) returns (res: nat)
    ensures res == Number(bools) && res < Power(|bools|)
  {
    res := 0;
    var bit := 1;
    for i := 0 to |bools|
      invariant res == Number(bools[..i]) && bit == Power(i)
    {
      NumberMore(bools[..i], bools[i]);
      assert bools[..i] + [bools[i]] == bools[..i + 1];
      if bools[i] {
        res := res + bit;
      }
      bit := bit * 2;
    }
    assert bools[..|bools|] == bools;
    NumberBelow(bools);
  }

  /** The place of a character in the table. */
  function CharToIndex(c: char): Option<nat> {
    Find(IndexToChar(), c)
  }

  function Find(table: string, c: char): (r: Option<nat>)
    ensures r.Some? ==> r.value < |table| && table[r.value] == c
    ensures r.None? ==> c !in table
  {
    if table == "" then None
    else if table[0] == c then Some(0)
    else
      var r := Find(table[1..], c);
      if r.Some? then Some(r.value + 1) else None
  }

  lemma TableIsDistinct(i: nat, j: nat)
    requires i < j < 64
    ensures IndexToChar()[i] != IndexToChar()[j]
  {
  }

  /** Small letters, capital letters and digits, each in a row, and two more. */
  lemma TableExactly()
    ensures var t := IndexToChar();
      && t[0] == 'a' && t[25] == 'z' && t[26] == 'A' && t[51] == 'Z' && t[52] == '0' && t[61] == '9' && t[62] == '+' && t[63] == '/'
      && forall i: nat | i < 61 && i != 25 && i != 51 :: t[i + 1] as int == t[i] as int + 1
  {
  }

  lemma IndexRoundTrip(n: nat)
    requires n < 64
    ensures CharToIndex(IndexToChar()[n]) == Some(n)
  {
    var r := CharToIndex(IndexToChar()[n]);
    assert IndexToChar()[n] in IndexToChar();
    if r.value < n { TableIsDistinct(r.value, n); }
    if n < r.value { TableIsDistinct(n, r.value); }
  }

  /** Whether a bit is set; false beyond the end. None is the failure on a character that is not in the table. */
  function GetItem(bits: string, ix: nat): Option<bool> {
    if ix / 6 >= |bits| then Some(false)
    else
      var n := CharToIndex(bits[ix / 6]);
      if n.Some? then Some(Bit(n.value, ix % 6)) else None
  }

  ghost predicate Holds(bits: string, bools: seq<bool>) {
    forall k: nat :: GetItem(bits, k) == Some(k < |bools| && bools[k])
  }

  /** Six bits to a character; every bit can be read back, and beyond them there are none. */
  method FromBools(bools: seq<bool>) returns (bits: string)
    ensures Holds(bits, bools)
    ensures |bits| == (|bools| + 5) / 6
  {
    bits := "";
    var i := 0;
    while i < |bools|
      invariant i == 6 * |bits| && i <= |bools| + 5
      invariant forall k: nat | k < i :: GetItem(bits, k) == Some(k < |bools| && bools[k])
    {
      var end := if i + 6 <= |bools| then i + 6 else |bools|;
      var n := PackBitstringToInt(bools[i..end]);
      SixBits(bools[i..end], n);
      var was := bits;
      bits := bits + [IndexToChar()[n]];
      forall k: nat | k < i + 6 ensures GetItem(bits, k) == Some(k < |bools| && bools[k]) {
        if k < i {
          assert GetItem(was, k) == Some(k < |bools| && bools[k]);
          assert bits[k / 6] == was[k / 6];
        } else {
          assert k / 6 == |was| && k % 6 == k - i;
          NumberBits(bools[i..end], k - i);
        }
      }
      i := i + 6;
    }
  }

  lemma SixBits(bools: seq<bool>, n: nat)
    requires |bools| <= 6 && n == Number(bools) && n < Power(|bools|)
    ensures n < 64 && CharToIndex(IndexToChar()[n]) == Some(n)
  {
    assert Power(0) == 1 && Power(1) == 2 && Power(2) == 4 && Power(3) == 8 && Power(4) == 16 && Power(5) == 32 && Power(6) == 64;
    IndexRoundTrip(n);
  }
}
