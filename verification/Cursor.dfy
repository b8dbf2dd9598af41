/** The opaque page cursor of the Kotlin backend: two base64url fields joined by a full stop. */
module Cursor {
  import opened Text
  import opened Fields
  import Calendar
  import Timestamps

  // ---------------------------------------------------------------- base64url (section 5 of RFC 4648)

  type Byte = n: int | 0 <= n < 256

  predicate IsSextet(n: int) { 0 <= n < 64 }

  function CharOf(n: int): char
    requires IsSextet(n)
  {
    if n < 26 then ('A' as int + n) as char
    else if n < 52 then ('a' as int + n - 26) as char
    else if n < 62 then ('0' as int + n - 52) as char
    else if n == 62 then '-' else '_'
  }

  /** The value of an alphabet character; -1 for any other. */
  function SextetOf(c: char): int {
    if 'A' <= c <= 'Z' then c as int - 'A' as int
    else if 'a' <= c <= 'z' then c as int - 'a' as int + 26
    else if '0' <= c <= '9' then c as int - '0' as int + 52
    else if c == '-' then 62 else if c == '_' then 63 else -1
  }

  /** Unpadded encoding. */
  function EncodeBytes(b: seq<Byte>): string {
    if |b| == 0 then ""
    else if |b| == 1 then [CharOf(b[0] / 4), CharOf(b[0] % 4 * 16)]
    else if |b| == 2 then [CharOf(b[0] / 4), CharOf(b[0] % 4 * 16 + b[1] / 16), CharOf(b[1] % 16 * 4)]
    else
      [CharOf(b[0] / 4), CharOf(b[0] % 4 * 16 + b[1] / 16), CharOf(b[1] % 16 * 4 + b[2] / 64), CharOf(b[2] % 64)]
      + EncodeBytes(b[3..])
  }

  function First(x: int, y: int): Byte
    requires IsSextet(x) && IsSextet(y)
  {
    x * 4 + y / 16
  }

  function Second(y: int, z: int): Byte
    requires IsSextet(y) && IsSextet(z)
  {
    y % 16 * 16 + z / 4
  }

  function Third(z: int, w: int): Byte
    requires IsSextet(z) && IsSextet(w)
  {
    z % 4 * 64 + w
  }

  /** Decoding with optional padding; None where the decoder throws. Unused low bits are ignored. */
  function DecodeBytes(s: string): Option<seq<Byte>> {
    if |s| == 0 then Some([])
    else
      var x := SextetOf(s[0]);
      var y := if |s| > 1 then SextetOf(s[1]) else -1;
      if x < 0 || y < 0 then None
      else if |s| == 2 || (s[2] == '=' && |s| == 4 && s[3] == '=') then Some([First(x, y)])
      else
        var z := SextetOf(s[2]);
        if z < 0 then None
        else if |s| == 3 || (s[3] == '=' && |s| == 4) then Some([First(x, y), Second(y, z)])
        else
          var w := SextetOf(s[3]);
          if w < 0 then None
          else
            match DecodeBytes(s[4..])
            case None => None
            case Some(rest) => Some([First(x, y), Second(y, z), Third(z, w)] + rest)
  }

  lemma SextetsRoundTrip(n: int)
    requires IsSextet(n)
    ensures SextetOf(CharOf(n)) == n && CharOf(n) != '='
  {}

  /** The alphabet: capitals, small letters, digits, then '-' and '_'. */
  lemma AlphabetIs(n: nat)
    requires n < 64
    ensures n < 26 ==> CharOf(n) == "ABCDEFGHIJKLMNOPQRSTUVWXYZ"[n]
    ensures 26 <= n < 52 ==> CharOf(n) == "abcdefghijklmnopqrstuvwxyz"[n - 26]
    ensures 52 <= n ==> CharOf(n) == "0123456789-_"[n - 52]
  {}

  /** Three bytes become four characters with the same 24 bits, the highest first; a shorter last group is padded with zeros. */
  lemma GroupsAreBits(b: seq<Byte>)
    requires b != []
    ensures var e := EncodeBytes(b);
      && |e| >= 2 && (|b| == 1 ==> |e| == 2 && SextetOf(e[0]) * 64 + SextetOf(e[1]) == b[0] as int * 16)
      && (|b| == 2 ==> |e| == 3 && (SextetOf(e[0]) * 64 + SextetOf(e[1])) * 64 + SextetOf(e[2]) == (b[0] as int * 256 + b[1] as int) * 4)
      && (|b| >= 3 ==>
            && |e| >= 4 && e[4..] == EncodeBytes(b[3..])
            && ((SextetOf(e[0]) * 64 + SextetOf(e[1])) * 64 + SextetOf(e[2])) * 64 + SextetOf(e[3])
               == (b[0] as int * 256 + b[1] as int) * 256 + b[2] as int)
  {
    hide CharOf, SextetOf;
    SextetsRoundTrip(b[0] / 4);
    SextetsRoundTrip(b[0] % 4 * 16);
    if |b| > 1 {
      SextetsRoundTrip(b[0] % 4 * 16 + b[1] / 16);
      SextetsRoundTrip(b[1] % 16 * 4);
    }
    if |b| > 2 {
      SextetsRoundTrip(b[1] % 16 * 4 + b[2] / 64);
      SextetsRoundTrip(b[2] % 64);
    }
  }

  lemma SextetOfIs(c: char)
    ensures -1 <= SextetOf(c) < 64 && (SextetOf(c) >= 0 ==> CharOf(SextetOf(c)) == c)
  {}

  predicate InAlphabet(s: string) { forall i :: 0 <= i < |s| ==> SextetOf(s[i]) >= 0 }

  /** Characters of the alphabet, not one over a multiple of four; padding, if there is any, fills the last group of four. */
  predicate IsEncoding(s: string) {
    || (|s| % 4 != 1 && InAlphabet(s))
    || (|s| >= 4 && |s| % 4 == 0 && s[|s| - 1] == '='
        && (InAlphabet(s[..|s| - 1]) || (s[|s| - 2] == '=' && InAlphabet(s[..|s| - 2]))))
  }

  lemma InAlphabetAt(s: string, n: nat)
    requires n <= |s|
    ensures InAlphabet(s) <==> InAlphabet(s[..n]) && InAlphabet(s[n..])
  {
    hide SextetOf;
    if InAlphabet(s[..n]) && InAlphabet(s[n..]) {
      forall i | 0 <= i < |s| ensures SextetOf(s[i]) >= 0 { assert i < n ==> s[i] == s[..n][i]; assert i >= n ==> s[i] == s[n..][i - n]; }
    }
  }

  lemma FourInAlphabet(s: string)
    requires |s| >= 4
    ensures InAlphabet(s[..4]) <==> SextetOf(s[0]) >= 0 && SextetOf(s[1]) >= 0 && SextetOf(s[2]) >= 0 && SextetOf(s[3]) >= 0
  {
    hide SextetOf;
    var t := s[..4];
    assert t[0] == s[0] && t[1] == s[1] && t[2] == s[2] && t[3] == s[3];
  }

  /** The decoder accepts exactly the encodings. */
  lemma {:induction false} DecodesEncodings(s: string)
    ensures DecodeBytes(s).Some? <==> IsEncoding(s)
  {
    hide SextetOf, First, Second, Third;
    assert SextetOf('=') < 0 by { PaddingIsNoDigit(); }
    if |s| > 4 {
      DecodesEncodings(s[4..]);
      FourInAlphabet(s);
      GroupThenEncoding(s);
    }
  }

  lemma PaddingIsNoDigit()
    ensures SextetOf('=') < 0
  {}

  lemma GroupThenEncoding(s: string)
    requires |s| > 4
    ensures IsEncoding(s) <==> InAlphabet(s[..4]) && IsEncoding(s[4..])
  {
    hide InAlphabet;
    InAlphabetAt(s, 4);
    InAlphabetAt(s[..|s| - 1], 4);
    assert s[..|s| - 1][..4] == s[..4] && s[..|s| - 1][4..] == s[4..][..|s[4..]| - 1];
    if |s| >= 6 {
      InAlphabetAt(s[..|s| - 2], 4);
      assert s[..|s| - 2][..4] == s[..4] && s[..|s| - 2][4..] == s[4..][..|s[4..]| - 2];
    }
  }

  lemma GroupRoundTrips(a: Byte, b: Byte, c: Byte)
    ensures First(a / 4, a % 4 * 16 + b / 16) == a
    ensures Second(a % 4 * 16 + b / 16, b % 16 * 4 + c / 64) == b
    ensures Third(b % 16 * 4 + c / 64, c % 64) == c
  {}

  lemma DecodesGroup(x: int, y: int, z: int, w: int, t: string)
    requires IsSextet(x) && IsSextet(y) && IsSextet(z) && IsSextet(w)
    ensures var s := [CharOf(x), CharOf(y), CharOf(z), CharOf(w)] + t;
      DecodeBytes(s) == if DecodeBytes(t).None? then None
                        else Some([First(x, y), Second(y, z), Third(z, w)] + DecodeBytes(t).value)
  {
    hide CharOf, SextetOf, First, Second, Third;
    SextetsRoundTrip(x);
    SextetsRoundTrip(y);
    SextetsRoundTrip(z);
    SextetsRoundTrip(w);
    var s := [CharOf(x), CharOf(y), CharOf(z), CharOf(w)] + t;
    assert s[4..] == t;
  }

  lemma DecodesShortGroup(x: int, y: int, z: int)
    requires IsSextet(x) && IsSextet(y) && IsSextet(z)
    ensures DecodeBytes([CharOf(x), CharOf(y)]) == Some([First(x, y)])
    ensures DecodeBytes([CharOf(x), CharOf(y), CharOf(z)]) == Some([First(x, y), Second(y, z)])
  {
    hide CharOf, SextetOf, First, Second, Third;
    SextetsRoundTrip(x);
    SextetsRoundTrip(y);
    SextetsRoundTrip(z);
  }

  lemma {:induction false} BytesRoundTrip(b: seq<Byte>)
    ensures DecodeBytes(EncodeBytes(b)) == Some(b)
  {
    hide CharOf, SextetOf, First, Second, Third, DecodeBytes;
    if |b| == 0 {
      assert DecodeBytes("") == Some([]) by { DecodesNothing(); }
    } else {
      var b1, b2 := if |b| > 1 then b[1] else 0, if |b| > 2 then b[2] else 0;
      var x, y, z, w := b[0] / 4, b[0] % 4 * 16 + b1 / 16, b1 % 16 * 4 + b2 / 64, b2 % 64;
      GroupRoundTrips(b[0], b1, b2);
      DecodesShortGroup(x, y, z);
      assert |b| == 1 ==> b == [b[0]] && EncodeBytes(b) == [CharOf(x), CharOf(y)];
      assert |b| == 2 ==> b == [b[0], b[1]] && EncodeBytes(b) == [CharOf(x), CharOf(y), CharOf(z)];
      if |b| > 2 {
        BytesRoundTrip(b[3..]);
        DecodesGroup(x, y, z, w, EncodeBytes(b[3..]));
        assert b == [b[0], b[1], b[2]] + b[3..];
      }
    }
  }

  lemma DecodesNothing()
    ensures DecodeBytes("") == Some([])
  {}

  /** The separator is outside the alphabet. */
  lemma {:induction false} NoDotInEncoding(b: seq<Byte>)
    ensures '.' !in EncodeBytes(b)
  {
    if |b| > 2 { NoDotInEncoding(b[3..]); }
  }

  // ---------------------------------------------------------------- the cursor

  predicate IsAscii(s: string) { forall i :: 0 <= i < |s| ==> s[i] as int < 128 }

  /** The UTF-8 bytes of an ASCII text. */
  function BytesOf(s: string): seq<Byte>
    requires IsAscii(s)
  {
    seq(|s|, i requires 0 <= i < |s| => s[i] as int)
  }

  function TextOf(b: seq<Byte>): string { seq(|b|, i requires 0 <= i < |b| => b[i] as char) }

  lemma {:induction false} RenderIsAscii(fs: seq<Field>, i: nat)
    requires i <= |fs| && forall k :: 0 <= k < |fs| ==> fs[k].end as int < 128
    ensures IsAscii(Render(fs, i))
    decreases |fs| - i
  {
    if i < |fs| {
      DigitsAreDigits(fs[i].value, fs[i].width);
      RenderIsAscii(fs, i + 1);
    }
  }

  lemma TimestampIsAscii(t: int)
    ensures IsAscii(Timestamps.Format(t)) && Timestamps.Format(t) != ""
  {
    hide Calendar.CivilOf, Render;
    var c := Calendar.CivilOf(t);
    Calendar.CivilOfIsValid(t);
    RenderIsAscii(Timestamps.FieldsOf(c), 0);
    Timestamps.RenderOpens(c);
  }

  function Encode(updatedAt: int, id: string): string
    requires IsAscii(id)
  {
    TimestampIsAscii(updatedAt);
    EncodeBytes(BytesOf(Timestamps.Format(updatedAt))) + "." + EncodeBytes(BytesOf(id))
  }

  /** Where the first full stop is; |s| if there is none. */
  function FirstDot(s: string): (n: nat)
    ensures n <= |s|
  {
    if s == "" || s[0] == '.' then 0 else 1 + FirstDot(s[1..])
  }

  /** The key (updated_at, id) a cursor names; None for an invalid cursor. */
  function Decode(s: string): Option<(string, string)> {
    var n := FirstDot(s);
    if n == |s| then None
    else
      match (DecodeBytes(s[..n]), DecodeBytes(s[n + 1..]))
      case (Some(u), Some(i)) => if u == [] || i == [] then None else Some((TextOf(u), TextOf(i)))
      case _ => None
  }

  lemma {:induction false} FirstDotIs(u: string, v: string)
    requires '.' !in u
    ensures FirstDot(u + "." + v) == |u|
  {
    var s := u + "." + v;
    if u != "" {
      FirstDotIs(u[1..], v);
      assert s[1..] == u[1..] + "." + v;
    }
  }

  /** Any two texts are read back from their two fields: the timestamp stands before the full stop, the id behind it. */
  lemma FieldsAreRead(stamp: string, id: string)
    requires IsAscii(stamp) && IsAscii(id) && stamp != "" && id != ""
    ensures Decode(EncodeBytes(BytesOf(stamp)) + "." + EncodeBytes(BytesOf(id))) == Some((stamp, id))
  {
    hide EncodeBytes, DecodeBytes;
    var u, i := BytesOf(stamp), BytesOf(id);
    BytesRoundTrip(u);
    BytesRoundTrip(i);
    NoDotInEncoding(u);
    var s := EncodeBytes(u) + "." + EncodeBytes(i);
    FirstDotIs(EncodeBytes(u), EncodeBytes(i));
    assert s[..|EncodeBytes(u)|] == EncodeBytes(u) && s[|EncodeBytes(u)| + 1..] == EncodeBytes(i);
    assert TextOf(u) == stamp && TextOf(i) == id;
  }

  /** The cursor of a page names exactly the key (text of the instant, id), for every id that is not empty. */
  lemma CursorRoundTrip(updatedAt: int, id: string)
    requires IsAscii(id)
    ensures Decode(Encode(updatedAt, id)) == Some((Timestamps.Format(updatedAt), id)) <==> id != ""
  {
    hide EncodeBytes, DecodeBytes, Timestamps.Format;
    TimestampIsAscii(updatedAt);
    var u, i := BytesOf(Timestamps.Format(updatedAt)), BytesOf(id);
    BytesRoundTrip(u);
    BytesRoundTrip(i);
    NoDotInEncoding(u);
    var s := Encode(updatedAt, id);
    FirstDotIs(EncodeBytes(u), EncodeBytes(i));
    assert s[..|EncodeBytes(u)|] == EncodeBytes(u) && s[|EncodeBytes(u)| + 1..] == EncodeBytes(i);
    assert TextOf(u) == Timestamps.Format(updatedAt) && TextOf(i) == id;
  }

  /** A cursor made from a parsed column names that very column text. */
  lemma CursorNamesStoredKey(t: int, id: string)
    requires IsAscii(id) && id != "" && Calendar.YearOf(t) >= 1
    ensures var stored := Timestamps.Format(t);
      Timestamps.Parse(stored).Some? && Decode(Encode(Timestamps.Parse(stored).value, id)) == Some((stored, id))
  {
    hide Encode, Decode, Timestamps.Format, Timestamps.Parse;
    Timestamps.RoundTrip(t);
    CursorRoundTrip(t, id);
  }
}
