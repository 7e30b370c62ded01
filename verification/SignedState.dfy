/**
 The signed OAuth state: URL-safe base64 of a serialised payload, a dot, and a keyed
 digest of the encoded text. Base64 is written out in full; the digest and the JSON
 serialiser are parameters.
 */
module SignedState {
  import opened Wrappers

  type Byte = b: int | 0 <= b < 256
  type Sextet = v: int | 0 <= v < 64

  // ---------------------------------------------------------------------------
  // URL-safe base64, section 5 of RFC 4648
  // ---------------------------------------------------------------------------

  function Digit(v: Sextet): char {
    if v < 26 then ('A' as int + v) as char
    else if v < 52 then ('a' as int + v - 26) as char
    else if v < 62 then ('0' as int + v - 52) as char
    else if v == 62 then '-' else '_'
  }

  /** The decoder's table: it knows the URL-safe digits and the standard ones. */
  function Value(c: char): Option<Sextet> {
    if 'A' <= c <= 'Z' then Some(c as int - 'A' as int)
    else if 'a' <= c <= 'z' then Some(c as int - 'a' as int + 26)
    else if '0' <= c <= '9' then Some(c as int - '0' as int + 52)
    else if c == '-' || c == '+' then Some(62)
    else if c == '_' || c == '/' then Some(63)
    else None
  }

  function Encode(bytes: seq<Byte>): string {
    if |bytes| == 0 then ""
    else if |bytes| == 1 then
      Single(bytes[0])
    else if |bytes| == 2 then
      Pair(bytes[0], bytes[1])
    else
      Quad(bytes[0], bytes[1], bytes[2]) + Encode(bytes[3..])
  }

  function Single(a: Byte): string {
    [Digit(a / 4), Digit(a % 4 * 16), '=', '=']
  }

  function Pair(a: Byte, b: Byte): string {
    [Digit(a / 4), Digit(a % 4 * 16 + b / 16), Digit(b % 16 * 4), '=']
  }

  function Quad(a: Byte, b: Byte, c: Byte): string {
    [Digit(a / 4), Digit(a % 4 * 16 + b / 16), Digit(b % 16 * 4 + c / 64), Digit(c % 64)]
  }

  function Prepend(b: Byte, rest: Option<seq<Byte>>): Option<seq<Byte>> {
    match rest
    case Some(bytes) => Some([b] + bytes)
    case None => None
  }

  /**
   The decoder's scan. `quad` counts the digits seen of the current group, `left` holds
   their bits not yet written, `pads` counts padding. Characters outside the alphabet are
   skipped, and a complete padding ends the scan; running out inside a group is an error.
   */
  function Scan(s: string, quad: nat, left: Sextet, pads: nat): Option<seq<Byte>>
    requires quad < 4 && (quad >= 2 ==> left < 16) && (quad == 3 ==> left < 4)
    decreases s
  {
    if s == "" then
      if quad == 0 then Some([]) else None
    else if s[0] == '=' then
      if quad >= 2 && quad + pads + 1 >= 4 then Some([])
      else Scan(s[1..], quad, left, if quad >= 2 then pads + 1 else pads)
    else match Value(s[0])
      case None => Scan(s[1..], quad, left, pads)
      case Some(v) =>
        if quad == 0 then Scan(s[1..], 1, v, 0)
        else if quad == 1 then Prepend(left * 4 + v / 16, Scan(s[1..], 2, v % 16, 0))
        else if quad == 2 then Prepend(left * 16 + v / 4, Scan(s[1..], 3, v % 4, 0))
        else Prepend(left * 64 + v, Scan(s[1..], 0, 0, 0))
  }

  function Decode(s: string): Option<seq<Byte>> {
    Scan(s, 0, 0, 0)
  }

  /** Characters outside the alphabet are skipped wherever they stand. */
  lemma {:induction false} StrayIsSkipped(before: string, stray: char, after: string, quad: nat, left: Sextet, pads: nat)
    requires Value(stray) == None && stray != '='
    requires quad < 4 && (quad >= 2 ==> left < 16) && (quad == 3 ==> left < 4)
    ensures Scan(before + [stray] + after, quad, left, pads) == Scan(before + after, quad, left, pads)
    decreases |before|
  {
    var s, t := before + [stray] + after, before + after;
    if before == "" {
      assert s[1..] == after && t == after;
    } else {
      assert s[0] == t[0] == before[0];
      assert s[1..] == before[1..] + [stray] + after && t[1..] == before[1..] + after;
      if before[0] == '=' {
        if !(quad >= 2 && quad + pads + 1 >= 4) {
          StrayIsSkipped(before[1..], stray, after, quad, left, if quad >= 2 then pads + 1 else pads);
        }
      } else {
        match Value(before[0])
        case None => StrayIsSkipped(before[1..], stray, after, quad, left, pads);
        case Some(v) =>
          if quad == 0 {
            StrayIsSkipped(before[1..], stray, after, 1, v, 0);
          } else if quad == 1 {
            StrayIsSkipped(before[1..], stray, after, 2, v % 16, 0);
          } else if quad == 2 {
            StrayIsSkipped(before[1..], stray, after, 3, v % 4, 0);
          } else {
            StrayIsSkipped(before[1..], stray, after, 0, 0, 0);
          }
      }
    }
  }

  /** So the decoder reads a text as if only its alphabet were there. */
  lemma DecodeIsLenient(before: string, stray: char, after: string)
    requires Value(stray) == None && stray != '='
    ensures Decode(before + [stray] + after) == Decode(before + after)
  {
    StrayIsSkipped(before, stray, after, 0, 0, 0);
  }

  lemma DigitHasValue(v: Sextet)
    ensures Value(Digit(v)) == Some(v) && Digit(v) != '=' && Digit(v) != '.'
  {
  }

  /** What one digit does to the scan. */
  function Shift(v: Sextet, quad: nat, left: Sextet, rest: string): Option<seq<Byte>>
    requires quad < 4 && (quad >= 2 ==> left < 16) && (quad == 3 ==> left < 4)
  {
    if quad == 0 then Scan(rest, 1, v, 0)
    else if quad == 1 then Prepend(left * 4 + v / 16, Scan(rest, 2, v % 16, 0))
    else if quad == 2 then Prepend(left * 16 + v / 4, Scan(rest, 3, v % 4, 0))
    else Prepend(left * 64 + v, Scan(rest, 0, 0, 0))
  }

  lemma ScanDigit(v: Sextet, quad: nat, left: Sextet, pads: nat, rest: string)
    requires quad < 4 && (quad >= 2 ==> left < 16) && (quad == 3 ==> left < 4)
    ensures Scan([Digit(v)] + rest, quad, left, pads) == Shift(v, quad, left, rest)
  {
    var s := [Digit(v)] + rest;
    DigitHasValue(v);
    assert s[1..] == rest;
  }

  lemma ScanPad(quad: nat, left: Sextet, pads: nat, rest: string)
    requires 2 <= quad < 4 && left < 16 && (quad == 3 ==> left < 4)
    ensures Scan("=" + rest, quad, left, pads) == if quad + pads + 1 >= 4 then Some([]) else Scan(rest, quad, left, pads + 1)
  {
    assert ("=" + rest)[1..] == rest;
  }

  /** Splitting two bytes across a digit boundary loses nothing. */
  lemma Halves(b: Byte)
    ensures b / 4 * 4 + b % 4 == b && b / 16 * 16 + b % 16 == b && b / 64 * 64 + b % 64 == b
    ensures b % 16 * 4 / 4 == b % 16 && b % 4 * 16 / 16 == b % 4
    ensures b / 16 < 16 && b / 64 < 4
  {
  }

  /** A digit shared by two neighbours splits back into its halves. */
  lemma Shared(high: nat, low: nat, base: nat)
    requires low < base && (base == 16 || base == 4)
    ensures (high * base + low) / base == high && (high * base + low) % base == low
  {
  }

  /** The first two digits of a group give its first byte and hold back the high half of the second. */
  lemma FrontScans(a: Byte, b: Byte, rest: string)
    ensures Scan([Digit(a / 4)] + ([Digit(a % 4 * 16 + b / 16)] + rest), 0, 0, 0) == Prepend(a, Scan(rest, 2, b / 16, 0))
  {
    Halves(a);
    Shared(a % 4, b / 16, 16);
    var v1 := a % 4 * 16 + b / 16;
    ScanDigit(a / 4, 0, 0, 0, [Digit(v1)] + rest);
    ScanDigit(v1, 1, a / 4, 0, rest);
  }

  /** The last two digits of a whole group give the other two bytes. */
  lemma BackScans(b: Byte, c: Byte, rest: string)
    ensures Scan([Digit(b % 16 * 4 + c / 64)] + ([Digit(c % 64)] + rest), 2, b / 16, 0) == Prepend(b, Prepend(c, Scan(rest, 0, 0, 0)))
  {
    Halves(b);
    Halves(c);
    Shared(b % 16, c / 64, 4);
    var v2 := b % 16 * 4 + c / 64;
    assert b / 16 * 16 + v2 / 4 == b && v2 % 4 * 64 + c % 64 == c;
    ScanDigit(v2, 2, b / 16, 0, [Digit(c % 64)] + rest);
    ScanDigit(c % 64, 3, c / 64, 0, rest);
  }

  lemma QuadScans(a: Byte, b: Byte, c: Byte, rest: string)
    ensures Scan(Quad(a, b, c) + rest, 0, 0, 0) == Prepend(a, Prepend(b, Prepend(c, Scan(rest, 0, 0, 0))))
  {
    var back := [Digit(b % 16 * 4 + c / 64)] + ([Digit(c % 64)] + rest);
    assert Quad(a, b, c) + rest == [Digit(a / 4)] + ([Digit(a % 4 * 16 + b / 16)] + back);
    FrontScans(a, b, back);
    BackScans(b, c, rest);
  }

  lemma OneByteScans(a: Byte)
    ensures Decode(Encode([a])) == Some([a])
  {
    Halves(a);
    var v0, v1 := a / 4, a % 4 * 16;
    var t2 := "=" + ("=" + "");
    var t1 := [Digit(v1)] + t2;
    assert Encode([a]) == [Digit(v0)] + t1;
    ScanDigit(v0, 0, 0, 0, t1);
    ScanDigit(v1, 1, v0, 0, t2);
    ScanPad(2, 0, 0, "=" + "");
    ScanPad(2, 0, 1, "");
    assert [a] + [] == [a];
  }

  lemma TwoBytesScan(a: Byte, b: Byte)
    ensures Decode(Encode([a, b])) == Some([a, b])
  {
    Halves(b);
    Shared(b % 16, 0, 4);
    var t3 := "=" + "";
    var t2 := [Digit(b % 16 * 4)] + t3;
    assert Encode([a, b]) == [Digit(a / 4)] + ([Digit(a % 4 * 16 + b / 16)] + t2);
    FrontScans(a, b, t2);
    ScanDigit(b % 16 * 4, 2, b / 16, 0, t3);
    ScanPad(3, 0, 0, "");
    assert [a] + ([b] + []) == [a, b];
  }

  /** Decoding undoes encoding at every length. */
  lemma {:induction false} DecodeEncode(bytes: seq<Byte>)
    ensures Decode(Encode(bytes)) == Some(bytes)
  {
    if |bytes| == 1 {
      OneByteScans(bytes[0]);
      assert bytes == [bytes[0]];
    } else if |bytes| == 2 {
      TwoBytesScan(bytes[0], bytes[1]);
      assert bytes == [bytes[0], bytes[1]];
    } else if |bytes| >= 3 {
      DecodeEncode(bytes[3..]);
      QuadScans(bytes[0], bytes[1], bytes[2], Encode(bytes[3..]));
      assert bytes == [bytes[0]] + ([bytes[1]] + ([bytes[2]] + bytes[3..]));
    }
  }

  lemma NoDot(a: Byte, b: Byte, c: Byte)
    ensures '.' !in Single(a) && '.' !in Pair(a, b) && '.' !in Quad(a, b, c)
  {
    DigitHasValue(a / 4);
    DigitHasValue(a % 4 * 16);
    DigitHasValue(a % 4 * 16 + b / 16);
    DigitHasValue(b % 16 * 4);
    DigitHasValue(b % 16 * 4 + c / 64);
    DigitHasValue(c % 64);
  }

  lemma {:induction false} EncodeLength(bytes: seq<Byte>)
    ensures |Encode(bytes)| == (|bytes| + 2) / 3 * 4
  {
    if |bytes| >= 3 {
      EncodeLength(bytes[3..]);
      assert (|bytes| + 2) / 3 == (|bytes| - 1) / 3 + 1;
    }
  }

  /** The encoding never contains the separator, and is padded to whole groups. */
  lemma {:induction false} EncodeShape(bytes: seq<Byte>)
    ensures '.' !in Encode(bytes)
    ensures |Encode(bytes)| == (|bytes| + 2) / 3 * 4
  {
    EncodeLength(bytes);
    if |bytes| > 0 {
      NoDot(bytes[0], if |bytes| > 1 then bytes[1] else 0, if |bytes| > 2 then bytes[2] else 0);
    }
    if |bytes| >= 3 {
      EncodeShape(bytes[3..]);
    }
  }

  // ---------------------------------------------------------------------------
  // Signing
  // ---------------------------------------------------------------------------

  datatype Payload = Payload(
    organizationId: string, redirectPath: string, inviteToken: Option<string>,
    nonce: string, iat: int, provider: Option<string>)

  /** The keyed digest (HMAC, section 2 of RFC 2104) and the JSON serialiser. */
  datatype Keys = Keys(mac: string -> string, dump: Payload -> seq<Byte>, load: seq<Byte> -> Option<Payload>)

  ghost predicate LoadsWhatItDumps(k: Keys) {
    forall p: Payload :: k.load(k.dump(p)) == Some(p)
  }

  datatype Error = InvalidState | InvalidSignature | Undecodable | ExpiredState

  function Sign(k: Keys, p: Payload): string {
    var body := Encode(k.dump(p));
    body + "." + k.mac(body)
  }

  /** The text before the first dot. */
  function Head(s: string): string {
    if s == "" || s[0] == '.' then "" else [s[0]] + Head(s[1..])
  }

  predicate Stale(p: Payload, now: real) {
    p.iat != 0 && now - p.iat as real > 900.0
  }

  lemma {:induction false} HeadOf(s: string)
    requires '.' in s
    ensures |Head(s)| < |s| && '.' !in Head(s)
    ensures s == Head(s) + "." + s[|Head(s)| + 1..]
  {
    if s[0] != '.' {
      assert s == [s[0]] + s[1..];
      HeadOf(s[1..]);
    }
  }

  lemma {:induction false} HeadOfSplit(body: string, tail: string)
    requires '.' !in body
    ensures Head(body + "." + tail) == body
  {
    var s := body + "." + tail;
    if body != "" {
      assert s[1..] == body[1..] + "." + tail;
      HeadOfSplit(body[1..], tail);
    }
  }

  function Unsign(k: Keys, state: string, now: real): Result<Payload, Error> {
    if '.' !in state then Err(InvalidState)
    else
      HeadOf(state);
      var body := Head(state);
      var sig := state[|body| + 1..];
      if sig != k.mac(body) then Err(InvalidSignature)
      else match Decode(body)
        case None => Err(Undecodable)
        case Some(bytes) =>
          match k.load(bytes)
          case None => Err(Undecodable)
          case Some(p) => if Stale(p, now) then Err(ExpiredState) else Ok(p)
  }

  /** Unsigning undoes signing exactly while the payload is at most 900 seconds old. */
  lemma UnsignSign(k: Keys, p: Payload, now: real)
    requires LoadsWhatItDumps(k)
    ensures Unsign(k, Sign(k, p), now) == if p.iat != 0 && now - p.iat as real > 900.0 then Err(ExpiredState) else Ok(p)
  {
    var body := Encode(k.dump(p));
    EncodeShape(k.dump(p));
    HeadOfSplit(body, k.mac(body));
    assert Sign(k, p)[|body|] == '.';
    assert Sign(k, p)[|body| + 1..] == k.mac(body);
    DecodeEncode(k.dump(p));
  }

  /** What acceptance of a body for a payload takes, apart from the digest. */
  predicate Carries(k: Keys, body: string, p: Payload, now: real) {
    '.' !in body && Decode(body).Some? && k.load(Decode(body).value) == Some(p) && !Stale(p, now)
  }

  /** A string is accepted, and as this payload, exactly when it is a dot-free body with its own digest, and the body decodes to the payload in time. */
  lemma AcceptedExactly(k: Keys, state: string, p: Payload, now: real)
    ensures Unsign(k, state, now) == Ok(p) <==> exists body :: Carries(k, body, p, now) && state == body + "." + k.mac(body)
  {
    if Unsign(k, state, now) == Ok(p) {
      HeadOf(state);
      assert Carries(k, Head(state), p, now) && state == Head(state) + "." + k.mac(Head(state));
    }
    if body :| Carries(k, body, p, now) && state == body + "." + k.mac(body) {
      HeadOfSplit(body, k.mac(body));
      assert state[|body|] == '.' && state[|body| + 1..] == k.mac(body);
    }
  }

  /** Which refusal a string gets: without a dot, with a wrong digest, or with a body that does not decode to a payload. */
  lemma RefusedExactly(k: Keys, state: string, now: real)
    ensures Unsign(k, state, now) == Err(InvalidState) <==> '.' !in state
    ensures Unsign(k, state, now) == Err(InvalidSignature)
       <==> exists body, sig :: '.' !in body && state == body + "." + sig && sig != k.mac(body)
  {
    if '.' in state {
      HeadOf(state);
      var body, sig := Head(state), state[|Head(state)| + 1..];
      assert state == body + "." + sig;
      forall b, t | '.' !in b && state == b + "." + t ensures b == body && t == sig {
        HeadOfSplit(b, t);
        assert (b + "." + t)[|b| + 1..] == t;
      }
    } else {
      forall b: string, t: string ensures state != b + "." + t {
        assert (b + "." + t)[|b|] == '.';
      }
    }
  }

  /** An accepted string is a dot-free body followed by that body's own digest. */
  lemma AcceptedIsSigned(k: Keys, state: string, now: real)
    requires Unsign(k, state, now).Ok?
    ensures exists body :: '.' !in body && state == body + "." + k.mac(body) && Decode(body).Some?
  {
    HeadOf(state);
    assert state == Head(state) + "." + k.mac(Head(state));
  }

  /** Nothing but the digest may follow a body: two accepted strings with one body are equal. */
  lemma SignatureIsForced(k: Keys, body: string, sig: string, now: real)
    requires '.' !in body && Unsign(k, body + "." + sig, now).Ok?
    ensures sig == k.mac(body)
  {
    var state := body + "." + sig;
    HeadOfSplit(body, sig);
    assert state[|body|] == '.';
    assert state[|body| + 1..] == sig;
  }

  /** Distinct payloads get distinct states. */
  lemma SignIsInjective(k: Keys, p: Payload, q: Payload)
    requires LoadsWhatItDumps(k) && Sign(k, p) == Sign(k, q)
    ensures p == q
  {
    EncodeShape(k.dump(p));
    EncodeShape(k.dump(q));
    HeadOfSplit(Encode(k.dump(p)), k.mac(Encode(k.dump(p))));
    HeadOfSplit(Encode(k.dump(q)), k.mac(Encode(k.dump(q))));
    DecodeEncode(k.dump(p));
    DecodeEncode(k.dump(q));
    assert k.load(k.dump(p)) == k.load(k.dump(q));
  }
}
