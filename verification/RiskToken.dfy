/** Printing and parsing of risk approval tokens (`aiswarm/risk/limits.py`). */
module RiskToken {
  import opened Common

  const TOKEN_TTL_SECONDS := 300.0
  const DEFAULT_KEY_ID := "v1"

  /** What the secrets provider returns; the empty string stands for an unset secret. */
  datatype Secrets = Secrets(current: string, previous: string, keyId: string)

  /** The keyed hash: secret and payload to a signature. It is not interpreted. */
  type Mac = (string, string) -> string

  datatype TokenError = SecretNotSet

  // ------------------------------------------------------------------
  // Splitting on colons
  // ------------------------------------------------------------------

  predicate NoColon(s: string) {
    ':' !in s
  }

  /** Python's `s.split(":")`. */
  function Split(s: string): (parts: seq<string>)
    ensures parts != []
  {
    if s == "" then [""]
    else
      var rest := Split(s[1..]);
      if s[0] == ':' then [""] + rest else [[s[0]] + rest[0]] + rest[1..]
  }

  function Join(parts: seq<string>): string
    requires parts != []
  {
    if |parts| == 1 then parts[0] else parts[0] + ":" + Join(parts[1..])
  }

  lemma {:induction false} SplitAtColon(a: string, b: string)
    requires NoColon(a)
    ensures Split(a + ":" + b) == [a] + Split(b)
  {
    if a == "" {
      assert (a + ":" + b)[1..] == b;
    } else {
      assert (a + ":" + b)[1..] == a[1..] + ":" + b;
      assert a[0] in a;
      SplitAtColon(a[1..], b);
      assert [a[0]] + a[1..] == a;
    }
  }

  lemma {:induction false} SplitWhole(a: string)
    requires NoColon(a)
    ensures Split(a) == [a]
  {
    if a != "" {
      assert a[0] in a;
      SplitWhole(a[1..]);
      assert [a[0]] + a[1..] == a;
    }
  }

  /** Splitting loses nothing, and no part contains a colon. */
  lemma {:induction false} JoinSplit(s: string)
    ensures Join(Split(s)) == s
    ensures forall i | 0 <= i < |Split(s)| :: NoColon(Split(s)[i])
  {
    if s != "" {
      var rest := Split(s[1..]);
      JoinSplit(s[1..]);
      if s[0] == ':' {
        assert ([""] + rest)[1..] == rest;
      } else {
        var parts := [[s[0]] + rest[0]] + rest[1..];
        assert |rest| > 1 ==> parts[1..] == rest[1..];
      }
    }
  }

  lemma {:induction false} SplitCount(a: string, b: string)
    ensures |Split(a + ":" + b)| == |Split(a)| + |Split(b)|
  {
    if a == "" {
      assert (a + ":" + b)[1..] == b;
    } else {
      assert (a + ":" + b)[1..] == a[1..] + ":" + b;
      SplitCount(a[1..], b);
    }
  }

  // ------------------------------------------------------------------
  // Decimal integers
  // ------------------------------------------------------------------

  predicate IsDigit(c: char) {
    '0' <= c <= '9'
  }

  function DigitValue(c: char): nat
    requires IsDigit(c)
  {
    c as nat - '0' as nat
  }

  /** Python's `str(n)`. */
  function Decimal(n: nat): (s: string)
    ensures s != ""
  {
    if n < 10 then [('0' as nat + n) as char] else Decimal(n / 10) + [('0' as nat + n % 10) as char]
  }

  /** Where the numeral before the last digit ends: before an underscore, if there is one. */
  function BeforeLast(s: string): nat
    requires |s| > 1
  {
    if s[|s| - 2] == '_' then |s| - 2 else |s| - 1
  }

  /** Digits, with single underscores allowed between them. */
  function ParseDigits(s: string): Option<nat> {
    if s == "" || !IsDigit(s[|s| - 1]) then None
    else if |s| == 1 then Some(DigitValue(s[0]))
    else
      var d := DigitValue(s[|s| - 1]);
      var before := ParseDigits(s[..BeforeLast(s)]);
      if before.None? then None else Some(before.value * 10 + d)
  }

  predicate IsSpace(c: char) {
    c in {' ', '\t', '\n', '\r'} || c as int in {11, 12}
  }

  function StripLeft(s: string): string {
    if s != "" && IsSpace(s[0]) then StripLeft(s[1..]) else s
  }

  function StripRight(s: string): string {
    if s != "" && IsSpace(s[|s| - 1]) then StripRight(s[..|s| - 1]) else s
  }

  /** Python's `int(s)`, with `None` for `ValueError`: spaces around, one sign, digits and underscores. */
  function PyInt(s: string): Option<int> {
    var t := StripRight(StripLeft(s));
    if t == "" then None
    else
      var signed := t[0] == '-' || t[0] == '+';
      var digits := ParseDigits(if signed then t[1..] else t);
      if digits.None? then None
      else
        var v: int := digits.value;
        Some(if t[0] == '-' then -v else v)
  }

  lemma {:induction false} DecimalDigits(n: nat)
    ensures forall c | c in Decimal(n) :: IsDigit(c)
    ensures ParseDigits(Decimal(n)) == Some(n)
  {
    var s := Decimal(n);
    if n >= 10 {
      DecimalDigits(n / 10);
      var before := Decimal(n / 10);
      assert s[..|s| - 1] == before;
      assert s[|s| - 2] == before[|before| - 1] && before[|before| - 1] in before;
    }
  }

  /** Parsing inverts printing. */
  lemma DecimalRoundTrip(n: nat)
    ensures PyInt(Decimal(n)) == Some(n) && NoColon(Decimal(n))
  {
    var s := Decimal(n);
    DecimalDigits(n);
    assert s[0] in s && s[|s| - 1] in s;
  }

  // ------------------------------------------------------------------
  // What `int` accepts
  // ------------------------------------------------------------------

  /** Digits and underscores, with a digit at either end and no two underscores together. */
  predicate Numeral(s: string) {
    && s != "" && IsDigit(s[0]) && IsDigit(s[|s| - 1])
    && (forall i | 0 <= i < |s| :: IsDigit(s[i]) || s[i] == '_')
    && (forall i | 0 < i < |s| :: !(s[i - 1] == '_' && s[i] == '_'))
  }

  lemma NumeralShrinks(s: string)
    requires |s| > 1 && Numeral(s)
    ensures Numeral(s[..BeforeLast(s)])
  {
    var before := s[..BeforeLast(s)];
    assert |before| > 0 && before[0] == s[0] && before[|before| - 1] == s[BeforeLast(s) - 1];
    assert forall i | 0 <= i < |before| :: before[i] == s[i];
  }

  lemma NumeralGrows(s: string)
    requires |s| > 1 && IsDigit(s[|s| - 1]) && Numeral(s[..BeforeLast(s)])
    ensures Numeral(s)
  {
    var n := BeforeLast(s);
    var before := s[..n];
    assert s[0] == before[0] && s[n - 1] == before[|before| - 1];
    forall i | 0 <= i < |s|
      ensures IsDigit(s[i]) || s[i] == '_'
    {
      assert i < n ==> s[i] == before[i];
    }
    forall i | 0 < i < |s|
      ensures !(s[i - 1] == '_' && s[i] == '_')
    {
      assert i < n ==> s[i] == before[i] && s[i - 1] == before[i - 1];
    }
  }

  lemma {:induction false} ParsesIffNumeral(s: string)
    ensures ParseDigits(s).Some? <==> Numeral(s)
    decreases |s|
  {
    if |s| > 1 && IsDigit(s[|s| - 1]) {
      hide Numeral;
      var before := s[..BeforeLast(s)];
      ParsesIffNumeral(before);
      if Numeral(s) { NumeralShrinks(s); }
      if Numeral(before) { NumeralGrows(s); }
    }
  }

  lemma ParseStep(s: string)
    requires |s| > 1 && IsDigit(s[|s| - 1]) && ParseDigits(s[..BeforeLast(s)]).Some?
    ensures ParseDigits(s) == Some(10 * ParseDigits(s[..BeforeLast(s)]).value + DigitValue(s[|s| - 1]))
  {
  }

  lemma DigitIs(c: char)
    requires IsDigit(c)
    ensures c != '_' && DigitValue(c) == c as int - '0' as int && 0 <= DigitValue(c) <= 9
  {
  }

  lemma PlainDigit(s: string, c: char)
    requires ParseDigits(s).Some? && s != "" && s[|s| - 1] != '_' && IsDigit(c)
    ensures ParseDigits(s + [c]) == Some(10 * ParseDigits(s).value + DigitValue(c))
  {
    hide ParseDigits, IsDigit, DigitValue;
    var t := s + [c];
    assert t[|t| - 2] == s[|s| - 1] && t[..|s|] == s;
    ParseStep(t);
  }

  lemma ScoredDigit(s: string, c: char)
    requires ParseDigits(s).Some? && s != "" && IsDigit(c)
    ensures ParseDigits(s + ['_', c]) == Some(10 * ParseDigits(s).value + DigitValue(c))
  {
    hide ParseDigits, IsDigit, DigitValue;
    var t := s + ['_', c];
    assert t[|t| - 2] == '_' && t[|t| - 1] == c && t[..|s|] == s;
    ParseStep(t);
  }

  lemma NumeralEnds(s: string)
    requires Numeral(s)
    ensures s != "" && IsDigit(s[|s| - 1])
  {
  }

  /** A further digit multiplies by ten and adds; an underscore before it makes no difference. */
  lemma DigitAppends(s: string, c: char)
    requires Numeral(s) && IsDigit(c)
    ensures ParseDigits(s).Some? && ParseDigits(s + [c]) == Some(10 * ParseDigits(s).value + (c as int - '0' as int))
    ensures ParseDigits(s + ['_', c]) == ParseDigits(s + [c])
  {
    hide ParseDigits, Numeral, DigitValue;
    ParsesIffNumeral(s);
    NumeralEnds(s);
    DigitIs(c);
    DigitIs(s[|s| - 1]);
    PlainDigit(s, c);
    ScoredDigit(s, c);
  }

  /** Blanks, and the control characters from tab to carriage return. */
  predicate AllSpaces(s: string) {
    forall i | 0 <= i < |s| :: s[i] == ' ' || 9 <= s[i] as int <= 13
  }

  lemma {:induction false} StripLeftIs(pre: string, t: string)
    requires AllSpaces(pre) && (t == "" || !IsSpace(t[0]))
    ensures StripLeft(pre + t) == t
  {
    if pre != "" {
      assert (pre + t)[1..] == pre[1..] + t;
      StripLeftIs(pre[1..], t);
    } else {
      assert pre + t == t;
    }
  }

  lemma {:induction false} StripRightIs(t: string, post: string)
    requires AllSpaces(post) && (t == "" || !IsSpace(t[|t| - 1]))
    ensures StripRight(t + post) == t
  {
    if post != "" {
      assert (t + post)[..|t + post| - 1] == t + post[..|post| - 1];
      StripRightIs(t, post[..|post| - 1]);
    } else {
      assert t + post == t;
    }
  }

  lemma {:induction false} LeftSpaces(s: string) returns (pre: string)
    ensures AllSpaces(pre) && s == pre + StripLeft(s)
    ensures StripLeft(s) == "" || !IsSpace(StripLeft(s)[0])
  {
    if s != "" && IsSpace(s[0]) {
      var rest := LeftSpaces(s[1..]);
      pre := [s[0]] + rest;
      assert s == [s[0]] + s[1..];
    } else {
      pre := "";
    }
  }

  lemma {:induction false} RightSpaces(s: string) returns (post: string)
    ensures AllSpaces(post) && s == StripRight(s) + post
    ensures StripRight(s) == "" || !IsSpace(StripRight(s)[|StripRight(s)| - 1])
  {
    if s != "" && IsSpace(s[|s| - 1]) {
      var rest := RightSpaces(s[..|s| - 1]);
      post := rest + [s[|s| - 1]];
      assert s == s[..|s| - 1] + [s[|s| - 1]];
    } else {
      post := "";
    }
  }

  /** `s` is spaces, an optional sign, a numeral and spaces, and stands for `v`. */
  ghost predicate Reads(s: string, v: int, pre: string, sign: string, digits: string, post: string) {
    && AllSpaces(pre) && AllSpaces(post) && sign in {"", "+", "-"} && Numeral(digits)
    && s == pre + (sign + digits) + post
    && ParseDigits(digits) == Some(if sign == "-" then -v else v)
  }

  lemma ReadsBack(s: string, v: int, pre: string, sign: string, digits: string, post: string)
    requires Reads(s, v, pre, sign, digits, post)
    ensures PyInt(s) == Some(v)
  {
    var t := sign + digits;
    assert t[0] == (if sign == "" then digits[0] else sign[0]) && t[|t| - 1] == digits[|digits| - 1];
    StripLeftIs(pre, t + post);
    assert pre + (sign + digits) + post == pre + (t + post);
    StripRightIs(t, post);
    assert sign != "" ==> t[1..] == digits;
    assert sign == "" ==> t == digits;
  }

  lemma ReadsApart(s: string, v: int) returns (pre: string, sign: string, digits: string, post: string)
    requires PyInt(s) == Some(v)
    ensures Reads(s, v, pre, sign, digits, post)
  {
    pre := LeftSpaces(s);
    post := RightSpaces(StripLeft(s));
    hide StripLeft, StripRight, ParseDigits, Numeral, AllSpaces;
    var t := StripRight(StripLeft(s));
    var signed := t[0] == '-' || t[0] == '+';
    sign, digits := if signed then [t[0]] else "", if signed then t[1..] else t;
    ParsesIffNumeral(digits);
    assert t == sign + digits;
    assert s == pre + (t + post) == pre + t + post;
  }

  /** Python's `int` on a string: what it accepts, and the value it gives. */
  lemma PyIntIff(s: string, v: int)
    ensures PyInt(s) == Some(v)
            <==> exists pre, sign, digits, post :: Reads(s, v, pre, sign, digits, post)
  {
    hide PyInt, Reads;
    if PyInt(s) == Some(v) {
      var pre, sign, digits, post := ReadsApart(s, v);
    }
    if pre, sign, digits, post :| Reads(s, v, pre, sign, digits, post) {
      ReadsBack(s, v, pre, sign, digits, post);
    }
  }

  // ------------------------------------------------------------------
  // Tokens
  // ------------------------------------------------------------------

  function KeyId(sec: Secrets): string {
    if sec.keyId == "" then DEFAULT_KEY_ID else sec.keyId
  }

  function Payload(orderId: string, timestamp: string, keyId: string): string {
    orderId + ":" + timestamp + ":" + keyId
  }

  /** `int(time.time())` for a clock after 1970. */
  function Stamp(now: real): nat
    requires now >= 0.0
  {
    now.Floor
  }

  function SignRiskToken(sec: Secrets, mac: Mac, orderId: string, now: real): Result<string, TokenError>
    requires now >= 0.0
  {
    if sec.current == "" then Err(SecretNotSet)
    else
      var payload := Payload(orderId, Decimal(Stamp(now)), KeyId(sec));
      Ok(payload + ":" + mac(sec.current, payload))
  }

  function VerifyRiskToken(sec: Secrets, mac: Mac, token: string, orderId: string, now: real)
    : Result<bool, TokenError>
  {
    var parts := Split(token);
    if |parts| != 4 then Ok(false)
    else if parts[0] != orderId then Ok(false)
    else
      var stamp := PyInt(parts[1]);
      if stamp.None? then Ok(false)
      else
        var elapsed := now - stamp.value as real;
        if elapsed > TOKEN_TTL_SECONDS || elapsed < 0.0 then Ok(false)
        else if sec.current == "" then Err(SecretNotSet)
        else
          var payload := Payload(parts[0], parts[1], parts[2]);
          Ok(parts[3] == mac(sec.current, payload) || (sec.previous != "" && parts[3] == mac(sec.previous, payload)))
  }

  /** Signatures are hexadecimal, so colon-free, and different secrets sign differently. */
  ghost predicate Signs(mac: Mac) {
    && (forall secret, payload :: NoColon(mac(secret, payload)))
    && (forall a, b, payload :: mac(a, payload) == mac(b, payload) ==> a == b)
  }

  lemma TokenParts(orderId: string, timestamp: string, keyId: string, signature: string)
    requires NoColon(timestamp) && NoColon(signature)
    ensures var parts := Split(Payload(orderId, timestamp, keyId) + ":" + signature);
            && (|parts| == 4 <==> NoColon(orderId) && NoColon(keyId))
            && (|parts| == 4 ==> parts == [orderId, timestamp, keyId, signature])
  {
    var tail := keyId + ":" + signature;
    var middle := timestamp + ":" + tail;
    assert Payload(orderId, timestamp, keyId) + ":" + signature == orderId + ":" + middle;
    SplitCount(orderId, middle);
    SplitCount(timestamp, tail);
    SplitCount(keyId, signature);
    SplitWhole(timestamp);
    SplitWhole(signature);
    OnePart(orderId);
    OnePart(keyId);
    if NoColon(orderId) && NoColon(keyId) {
      SplitAtColon(orderId, middle);
      SplitAtColon(timestamp, tail);
      SplitAtColon(keyId, signature);
    }
  }

  lemma OnePart(a: string)
    ensures |Split(a)| == 1 <==> NoColon(a)
  {
  }

  /** What a signed token is: four parts, of which the last signs the first three. */
  lemma TokenShape(sec: Secrets, mac: Mac, orderId: string, now: real)
    requires now >= 0.0
    ensures SignRiskToken(sec, mac, orderId, now).Ok? <==> sec.current != ""
    ensures sec.current != "" ==>
              exists second: nat ::
                && second as real <= now < second as real + 1.0
                && var signed := orderId + ":" + Decimal(second) + ":" + (if sec.keyId == "" then "v1" else sec.keyId);
                   SignRiskToken(sec, mac, orderId, now).value == signed + ":" + mac(sec.current, signed)
  {
    var second := Stamp(now);
    assert second as real <= now < second as real + 1.0;
  }

  /**
   * The round trip, for all ids and keys. A signed token verifies exactly when neither id contains a
   * colon, the order is the one it was signed for, between 0 and 300 seconds have passed since the
   * whole second it was signed in, and the signing secret is the verifier's current or previous one.
   */
  lemma TokenRoundTrip(signer: Secrets, verifier: Secrets, mac: Mac, orderId: string, otherId: string,
                       signedAt: real, now: real)
    requires Signs(mac) && signer.current != "" && verifier.current != "" && signedAt >= 0.0
    ensures var token := SignRiskToken(signer, mac, orderId, signedAt).value;
            var age := now - Stamp(signedAt) as real;
            VerifyRiskToken(verifier, mac, token, otherId, now)
            == Ok(&& NoColon(orderId) && NoColon(KeyId(signer)) && otherId == orderId
                  && 0.0 <= age <= 300.0
                  && (signer.current == verifier.current || signer.current == verifier.previous))
  {
    var stamp, key := Decimal(Stamp(signedAt)), KeyId(signer);
    var signature := mac(signer.current, Payload(orderId, stamp, key));
    DecimalRoundTrip(Stamp(signedAt));
    TokenParts(orderId, stamp, key, signature);
  }

  /** Without a secret, verification fails outright just for the tokens that would still be in time. */
  lemma TokenWithoutSecret(signer: Secrets, verifier: Secrets, mac: Mac, orderId: string, otherId: string,
                           signedAt: real, now: real)
    requires Signs(mac) && signer.current != "" && verifier.current == "" && signedAt >= 0.0
    ensures var token := SignRiskToken(signer, mac, orderId, signedAt).value;
            var age := now - Stamp(signedAt) as real;
            VerifyRiskToken(verifier, mac, token, otherId, now)
            == if && NoColon(orderId) && NoColon(KeyId(signer)) && otherId == orderId
                  && 0.0 <= age <= 300.0
               then Err(SecretNotSet) else Ok(false)
  {
    var stamp, key := Decimal(Stamp(signedAt)), KeyId(signer);
    var signature := mac(signer.current, Payload(orderId, stamp, key));
    DecimalRoundTrip(Stamp(signedAt));
    TokenParts(orderId, stamp, key, signature);
  }

  /** A token of the four-part form, recent and signed with a secret of the verifier. */
  ghost predicate Genuine(sec: Secrets, mac: Mac, token: string, orderId: string, now: real, stamp: string,
                          key: string) {
    var payload := Payload(orderId, stamp, key);
    && NoColon(orderId) && NoColon(stamp) && NoColon(key)
    && PyInt(stamp).Some? && 0.0 <= now - PyInt(stamp).value as real <= 300.0
    && (token == payload + ":" + mac(sec.current, payload)
        || (sec.previous != "" && token == payload + ":" + mac(sec.previous, payload)))
  }

  /** Any string at all verifies exactly when it is such a token: there is no other way in. */
  lemma VerifiesIffGenuine(sec: Secrets, mac: Mac, token: string, orderId: string, now: real)
    requires Signs(mac) && sec.current != ""
    ensures VerifyRiskToken(sec, mac, token, orderId, now) == Ok(true)
            <==> exists stamp, key :: Genuine(sec, mac, token, orderId, now, stamp, key)
  {
    var parts := Split(token);
    JoinSplit(token);
    if VerifyRiskToken(sec, mac, token, orderId, now) == Ok(true) {
      JoinFour(parts);
      assert Genuine(sec, mac, token, orderId, now, parts[1], parts[2]);
    }
    if stamp, key :| Genuine(sec, mac, token, orderId, now, stamp, key) {
      var payload := Payload(orderId, stamp, key);
      TokenParts(orderId, stamp, key, mac(sec.current, payload));
      TokenParts(orderId, stamp, key, mac(sec.previous, payload));
    }
  }

  lemma JoinFour(parts: seq<string>)
    requires |parts| == 4
    ensures Join(parts) == Payload(parts[0], parts[1], parts[2]) + ":" + parts[3]
  {
    var b, c, d := parts[1..], parts[1..][1..], parts[1..][1..][1..];
    assert b == [parts[1], parts[2], parts[3]] && c == [parts[2], parts[3]] && d == [parts[3]];
    assert Join(d) == parts[3];
    assert Join(c) == parts[2] + ":" + parts[3];
    assert Join(b) == parts[1] + ":" + Join(c);
  }
}
