// internals/token/main.go: stateless signed capability tokens. The HMAC is a function
// parameter; strings are byte sequences and instants are nanoseconds since the epoch.
module Tokens {
  import opened Basics
  import opened Base64Url

  datatype Error = InvalidInput | Malformed | BadSignature | Expired
  datatype Result<+T> = Ok(value: T) | Err(error: Error)

  type Mac = Bytes -> Bytes

  const DOT: Byte := 46
  const COLON: Byte := 58
  const MINUS: Byte := 45
  const PLUS: Byte := 43
  const NANOS := 1_000_000_000

  function Code(c: char): Byte {
    if c < '\U{0080}' then c as int else 0
  }

  /** The bytes of an ASCII constant. */
  function Ascii(s: string): Bytes {
    seq(|s|, i requires 0 <= i < |s| => Code(s[i]))
  }

  // --- decimal integers (strconv.FormatInt / ParseInt with bitSize 64) ---------------

  predicate IsInt64(n: int) {
    -0x8000_0000_0000_0000 <= n < 0x8000_0000_0000_0000
  }

  function Digits(n: nat): Bytes {
    if n < 10 then [48 + n] else Digits(n / 10) + [48 + n % 10]
  }

  function FormatInt(n: int): Bytes {
    if n < 0 then [MINUS] + Digits(-n) else Digits(n)
  }

  function ParseDigits(s: Bytes): Option<nat> {
    if s == [] then Some(0)
    else
      var last := s[|s| - 1];
      if !(48 <= last <= 57) then None
      else
        match ParseDigits(s[..|s| - 1])
        case None => None
        case Some(n) => Some(10 * n + last - 48)
  }

  function ParseInt(s: Bytes): Option<int> {
    var signed := s != [] && (s[0] == MINUS || s[0] == PLUS);
    var digits := if signed then s[1..] else s;
    if digits == [] then None
    else
      match ParseDigits(digits)
      case None => None
      case Some(n) =>
        var m: int := n;
        var v := if signed && s[0] == MINUS then -m else m;
        if IsInt64(v) then Some(v) else None
  }

  // --- splitting ---------------------------------------------------------------------

  /** The index of the first separator, or the length when there is none. */
  function IndexOf(s: Bytes, sep: Byte): (i: nat)
    ensures i <= |s|
    ensures sep !in s[..i]
    ensures i < |s| ==> s[i] == sep
  {
    if s == [] || s[0] == sep then 0 else 1 + IndexOf(s[1..], sep)
  }

  /** strings.Split. */
  function Split(s: Bytes, sep: Byte): (parts: seq<Bytes>)
    ensures |parts| >= 1
    decreases |s|
  {
    var i := IndexOf(s, sep);
    if i == |s| then [s] else [s[..i]] + Split(s[i + 1..], sep)
  }

  // --- Sign and Verify ------------------------------------------------------------------

  /** What a token says: purpose on subject until exp (Unix seconds). */
  datatype Claim = Claim(purpose: Bytes, subject: Bytes, exp: int)

  predicate WellFormed(c: Claim) {
    c.purpose != [] && c.subject != [] && DOT !in c.purpose && DOT !in c.subject && IsInt64(c.exp)
  }

  function Payload(c: Claim): Bytes {
    c.purpose + [DOT] + c.subject + [DOT] + FormatInt(c.exp)
  }

  function Body(c: Claim): Bytes {
    Encode(Payload(c))
  }

  function Token(mac: Mac, c: Claim): Bytes {
    Body(c) + [DOT] + Encode(mac(Body(c)))
  }

  function Sign(mac: Mac, purpose: Bytes, subject: Bytes, ttl: int, now: int): Result<Bytes> {
    if purpose == [] || subject == [] then Err(InvalidInput)
    else if DOT in purpose || DOT in subject then Err(InvalidInput)
    else
      var exp := (now + ttl) / NANOS;
      var body := Encode(purpose + [DOT] + subject + [DOT] + FormatInt(exp));
      Ok(body + [DOT] + Encode(mac(body)))
  }

  function Verify(mac: Mac, purpose: Bytes, tok: Bytes, now: int): Result<Bytes> {
    var i := IndexOf(tok, DOT);
    if i == |tok| then Err(Malformed)
    else
      var body, sig := tok[..i], tok[i + 1..];
      if body == [] || sig == [] then Err(Malformed)
      else
        match Decode(sig)
        case None => Err(Malformed)
        case Some(want) =>
          if want != mac(body) then Err(BadSignature)
          else
            match Decode(body)
            case None => Err(Malformed)
            case Some(raw) => Check(purpose, Split(raw, DOT), now)
  }

  function Check(purpose: Bytes, parts: seq<Bytes>, now: int): Result<Bytes> {
    if |parts| != 3 then Err(Malformed)
    else if parts[0] != purpose then Err(BadSignature)
    else
      match ParseInt(parts[2])
      case None => Err(Malformed)
      case Some(exp) => if now > exp * NANOS then Err(Expired) else Ok(parts[1])
  }

  /** The part of a token the MAC covers. */
  function SignedPart(tok: Bytes): Bytes {
    tok[..IndexOf(tok, DOT)]
  }

  // --- lemmas -------------------------------------------------------------------------

  lemma {:induction false} DigitsParse(n: nat)
    ensures Digits(n) != [] && (forall b :: b in Digits(n) ==> 48 <= b <= 57)
    ensures ParseDigits(Digits(n)) == Some(n)
  {
    if n < 10 {
      assert Digits(n)[..0] == [];
    } else {
      DigitsParse(n / 10);
      var d := Digits(n);
      assert d[..|d| - 1] == Digits(n / 10);
    }
  }

  lemma FormatParses(n: int)
    requires IsInt64(n)
    ensures ParseInt(FormatInt(n)) == Some(n)
    ensures DOT !in FormatInt(n) && FormatInt(n) != []
  {
    hide Digits, ParseDigits;
    if n < 0 {
      DigitsParse(-n);
      var d := Digits(-n);
      assert FormatInt(n) == [MINUS] + d && FormatInt(n)[1..] == d;
    } else {
      DigitsParse(n);
      assert Digits(n)[0] in Digits(n);
    }
  }

  lemma {:induction false} FirstSeparator(a: Bytes, b: Bytes, sep: Byte)
    requires sep !in a
    ensures IndexOf(a + [sep] + b, sep) == |a|
  {
    if a != [] {
      assert (a + [sep] + b)[1..] == a[1..] + [sep] + b;
      FirstSeparator(a[1..], b, sep);
    }
  }

  lemma NoSeparator(a: Bytes, sep: Byte)
    requires sep !in a
    ensures Split(a, sep) == [a]
  {
    forall k | 0 <= k < |a| ensures a[k] != sep {
      assert a[k] in a;
    }
  }

  lemma SplitFirst(a: Bytes, b: Bytes, sep: Byte)
    requires sep !in a
    ensures Split(a + [sep] + b, sep) == [a] + Split(b, sep)
  {
    FirstSeparator(a, b, sep);
    var s := a + [sep] + b;
    assert s[..|a|] == a && s[|a| + 1..] == b;
  }

  lemma PayloadSplits(c: Claim)
    requires WellFormed(c)
    ensures Split(Payload(c), DOT) == [c.purpose, c.subject, FormatInt(c.exp)]
  {
    var e := FormatInt(c.exp);
    FormatParses(c.exp);
    assert Payload(c) == c.purpose + [DOT] + (c.subject + [DOT] + e);
    SplitFirst(c.purpose, c.subject + [DOT] + e, DOT);
    SplitFirst(c.subject, e, DOT);
    NoSeparator(e, DOT);
  }

  lemma CheckOfClaim(purpose: Bytes, c: Claim, now: int)
    requires WellFormed(c)
    ensures Check(purpose, Split(Payload(c), DOT), now)
            == if purpose != c.purpose then Err(BadSignature)
               else if now > c.exp * NANOS then Err(Expired)
               else Ok(c.subject)
  {
    PayloadSplits(c);
    FormatParses(c.exp);
  }

  lemma NoDotInEncoding(s: Bytes)
    ensures DOT !in Encode(s)
  {
    EncodedIsInAlphabet(s);
    assert Value(DOT).None?;
  }

  lemma SignIssuesToken(mac: Mac, purpose: Bytes, subject: Bytes, ttl: int, now: int)
    ensures Sign(mac, purpose, subject, ttl, now).Ok? <==>
              purpose != [] && subject != [] && DOT !in purpose && DOT !in subject
    ensures Sign(mac, purpose, subject, ttl, now).Ok? ==>
              Sign(mac, purpose, subject, ttl, now).value == Token(mac, Claim(purpose, subject, (now + ttl) / NANOS))
  {
  }

  /** Verify on a token this secret signed: the subject until the deadline passes, then
      "expired", and a signature error for every other purpose. */
  lemma VerifyInvertsSign(mac: Mac, c: Claim, purpose: Bytes, now: int)
    requires WellFormed(c) && mac(Body(c)) != []
    ensures Verify(mac, purpose, Token(mac, c), now)
            == if purpose != c.purpose then Err(BadSignature)
               else if now > c.exp * NANOS then Err(Expired)
               else Ok(c.subject)
  {
    var body, sig := Body(c), Encode(mac(Body(c)));
    NoDotInEncoding(Payload(c));
    FirstSeparator(body, sig, DOT);
    var tok := Token(mac, c);
    assert tok[..|body|] == body && tok[|body| + 1..] == sig;
    RoundTrip(mac(body));
    RoundTrip(Payload(c));
    CheckOfClaim(purpose, c, now);
  }

  /** The other message kind keyed with the same secret: auth's codeMAC over
      "signin-code:<token hash>:<code>". */
  function CodeMessage(tokenHash: Bytes, code: Bytes): Bytes {
    Ascii("signin-code:") + tokenHash + [COLON] + code
  }

  lemma CodeMessageIsNoBody(tokenHash: Bytes, code: Bytes, payload: Bytes)
    ensures CodeMessage(tokenHash, code) != Encode(payload)
  {
    var m := CodeMessage(tokenHash, code);
    assert m[|Ascii("signin-code:") + tokenHash|] == COLON;
    EncodedIsInAlphabet(payload);
    assert Value(COLON).None?;
  }

  /** Every message the secret was ever used on: the bodies of signed claims and sign-in codes. */
  ghost predicate OnlyMacked(macked: set<Bytes>, claims: set<Claim>) {
    forall m :: m in macked ==>
      (exists c :: c in claims && WellFormed(c) && m == Body(c)) || (exists h, code :: m == CodeMessage(h, code))
  }

  /** What follows a token's first dot, decoded. */
  function Signature(tok: Bytes): Option<Bytes> {
    var i := IndexOf(tok, DOT);
    if i < |tok| then Decode(tok[i + 1..]) else None
  }

  /** MACs are not guessed: a token that carries the MAC of its first part has it from this server. */
  ghost predicate Unguessed(mac: Mac, macked: set<Bytes>, tok: Bytes) {
    Signature(tok) == Some(mac(SignedPart(tok))) ==> SignedPart(tok) in macked
  }

  /** A token that verifies for a purpose - unless its MAC was guessed - was signed for exactly that
      purpose and subject, and has not expired. */
  lemma VerifiedWasSigned(mac: Mac, macked: set<Bytes>, claims: set<Claim>, purpose: Bytes, tok: Bytes, now: int)
    returns (c: Claim)
    requires OnlyMacked(macked, claims) && Unguessed(mac, macked, tok)
    requires Verify(mac, purpose, tok, now).Ok?
    ensures c in claims && WellFormed(c) && SignedPart(tok) == Body(c)
    ensures c.purpose == purpose && c.subject == Verify(mac, purpose, tok, now).value && now <= c.exp * NANOS
  {
    var body := SignedPart(tok);
    SignatureIsChecked(mac, purpose, tok, now);
    if h, code :| body == CodeMessage(h, code) {
      CodeIsNotDecodable(h, code);
    }
    c :| c in claims && WellFormed(c) && body == Body(c);
    RoundTrip(Payload(c));
    CheckOfClaim(purpose, c, now);
  }

  lemma CodeIsNotDecodable(h: Bytes, code: Bytes)
    ensures Decode(CodeMessage(h, code)).None?
  {
    var m := CodeMessage(h, code);
    assert m[|Ascii("signin-code:") + h|] == COLON;
    StrayByte(m, |Ascii("signin-code:") + h|);
  }

  lemma {:induction false} StrayByte(s: Bytes, i: nat)
    requires i < |s| && Value(s[i]).None? && s[i] != LF && s[i] != CR
    ensures Decode(s).None?
  {
    SkipKeeps(s, i);
    var t := SkipNewlines(s);
    var j :| 0 <= j < |t| && t[j] == s[i];
    StrayInQuanta(t, j);
  }

  lemma {:induction false} SkipKeeps(s: Bytes, i: nat)
    requires i < |s| && s[i] != LF && s[i] != CR
    ensures s[i] in SkipNewlines(s)
  {
    if i > 0 {
      SkipKeeps(s[1..], i - 1);
    }
  }

  lemma {:induction false} StrayInQuanta(s: Bytes, i: nat)
    requires i < |s| && Value(s[i]).None?
    ensures DecodeQuanta(s).None?
  {
    if i >= 4 {
      StrayInQuanta(s[4..], i - 4);
    }
  }

  // --- what every token is answered -------------------------------------------------------------------

  /** Whatever verifies carries, after its first dot, the MAC of what stands before it. */
  lemma SignatureIsChecked(mac: Mac, purpose: Bytes, tok: Bytes, now: int)
    requires Verify(mac, purpose, tok, now).Ok?
    ensures var i := |SignedPart(tok)|; i < |tok| && Decode(tok[i + 1..]) == Some(mac(SignedPart(tok)))
  {
  }

  /** tok is body.sig with sig an encoding of body's MAC, and body one of raw. */
  ghost predicate Authentic(mac: Mac, tok: Bytes, raw: Bytes) {
    exists body: Bytes, sig: Bytes ::
      && tok == body + [DOT] + sig && body != [] && sig != [] && DOT !in body
      && Decode(sig) == Some(mac(body)) && Decode(body) == Some(raw)
  }

  /** raw reads purpose.subject.exp: two dots, and a decimal deadline. */
  ghost predicate Reads(raw: Bytes, purpose: Bytes, subject: Bytes, exp: int) {
    exists e: Bytes ::
      && raw == purpose + [DOT] + subject + [DOT] + e
      && DOT !in purpose && DOT !in subject && DOT !in e && ParseInt(e) == Some(exp)
  }

  lemma SplitUnfolds(s: Bytes)
    ensures var i := IndexOf(s, DOT);
      Split(s, DOT) == if i == |s| then [s] else [s[..i]] + Split(s[i + 1..], DOT)
  {
  }

  lemma CutAtDot(s: Bytes)
    ensures var i := IndexOf(s, DOT);
      && DOT !in s[..i] && (i == |s| ==> DOT !in s) && (i < |s| ==> s == s[..i] + [DOT] + s[i + 1..])
  {
    hide IndexOf;
    var i := IndexOf(s, DOT);
    if i < |s| {
      CutAt(s, i);
    } else {
      assert s[..i] == s;
    }
  }

  lemma CutAt(s: Bytes, i: nat)
    requires i < |s|
    ensures s == s[..i] + [s[i]] + s[i + 1..]
  {
  }

  lemma SplitOnce(s: Bytes)
    ensures var i := IndexOf(s, DOT);
      if i == |s| then DOT !in s && Split(s, DOT) == [s]
      else s == s[..i] + [DOT] + s[i + 1..] && DOT !in s[..i] && Split(s, DOT) == [s[..i]] + Split(s[i + 1..], DOT)
  {
    hide IndexOf, Split;
    SplitUnfolds(s);
    CutAtDot(s);
  }

  lemma SplitIntoThree(raw: Bytes)
    requires |Split(raw, DOT)| == 3
    ensures var p := Split(raw, DOT);
      raw == p[0] + [DOT] + p[1] + [DOT] + p[2] && DOT !in p[0] && DOT !in p[1] && DOT !in p[2]
  {
    hide Split, IndexOf;
    SplitOnce(raw);
    var rest := raw[IndexOf(raw, DOT) + 1..];
    SplitOnce(rest);
    var last := rest[IndexOf(rest, DOT) + 1..];
    SplitOnce(last);
    var p := Split(raw, DOT);
    assert Split(rest, DOT) == p[1..];
    assert Split(last, DOT) == p[2..];
  }

  lemma SplitOfThree(a: Bytes, b: Bytes, e: Bytes)
    requires DOT !in a && DOT !in b && DOT !in e
    ensures Split(a + [DOT] + b + [DOT] + e, DOT) == [a, b, e]
  {
    assert a + [DOT] + b + [DOT] + e == a + [DOT] + (b + [DOT] + e);
    SplitFirst(a, b + [DOT] + e, DOT);
    SplitFirst(b, e, DOT);
    NoSeparator(e, DOT);
  }

  /** The check of the decoded body, in its terms. */
  lemma CheckIff(raw: Bytes, purpose: Bytes, subject: Bytes, now: int)
    ensures Check(purpose, Split(raw, DOT), now) == Ok(subject)
            <==> exists exp :: Reads(raw, purpose, subject, exp) && now <= exp * NANOS
    ensures Check(purpose, Split(raw, DOT), now) == Err(Expired)
            <==> exists s, exp :: Reads(raw, purpose, s, exp) && now > exp * NANOS
  {
    var p := Split(raw, DOT);
    if |p| == 3 && p[0] == purpose && ParseInt(p[2]).Some? {
      SplitIntoThree(raw);
      assert Reads(raw, purpose, p[1], ParseInt(p[2]).value);
    }
    forall s, exp | Reads(raw, purpose, s, exp) ensures |p| == 3 && p[0] == purpose && p[1] == s
        && ParseInt(p[2]) == Some(exp) {
      var e: Bytes :| raw == purpose + [DOT] + s + [DOT] + e
                      && DOT !in purpose && DOT !in s && DOT !in e && ParseInt(e) == Some(exp);
      SplitOfThree(purpose, s, e);
    }
  }

  lemma AuthenticIff(mac: Mac, tok: Bytes, raw: Bytes)
    ensures Authentic(mac, tok, raw) <==>
              var body := SignedPart(tok);
              && body != [] && |body| < |tok| - 1
              && Signature(tok) == Some(mac(body)) && Decode(body) == Some(raw)
  {
    var i := IndexOf(tok, DOT);
    if i < |tok| {
      assert tok == tok[..i] + [DOT] + tok[i + 1..];
    }
    forall body: Bytes, sig: Bytes | tok == body + [DOT] + sig && DOT !in body
      ensures body == SignedPart(tok) && i < |tok| && sig == tok[i + 1..]
    {
      FirstSeparator(body, sig, DOT);
    }
  }

  /** For every token: it verifies to a subject exactly if it is authentic, its body reads
      purpose.subject.exp for the purpose asked for, and the deadline has not passed. */
  lemma VerifiesIff(mac: Mac, purpose: Bytes, tok: Bytes, now: int, subject: Bytes)
    ensures Verify(mac, purpose, tok, now) == Ok(subject)
            <==> exists raw, exp :: Authentic(mac, tok, raw) && Reads(raw, purpose, subject, exp) && now <= exp * NANOS
  {
    hide Authentic, Reads, Check, Split;
    if raw :| Decode(SignedPart(tok)) == Some(raw) {
      AuthenticIff(mac, tok, raw);
      CheckIff(raw, purpose, subject, now);
    }
    forall raw | Authentic(mac, tok, raw) ensures Decode(SignedPart(tok)) == Some(raw) {
      AuthenticIff(mac, tok, raw);
    }
  }

  /** And it is answered "expired" exactly if all of that holds but the deadline has passed. */
  lemma ExpiredIff(mac: Mac, purpose: Bytes, tok: Bytes, now: int)
    ensures Verify(mac, purpose, tok, now) == Err(Expired)
            <==> exists raw, s, exp :: Authentic(mac, tok, raw) && Reads(raw, purpose, s, exp) && now > exp * NANOS
  {
    hide Authentic, Reads, Check, Split;
    if raw :| Decode(SignedPart(tok)) == Some(raw) {
      AuthenticIff(mac, tok, raw);
      CheckIff(raw, purpose, [], now);
    }
    forall raw | Authentic(mac, tok, raw) ensures Decode(SignedPart(tok)) == Some(raw) {
      AuthenticIff(mac, tok, raw);
    }
  }

  /** A token whose second part is not the MAC of its first is a bad signature, whatever it says. */
  lemma ForgeryIsRefused(mac: Mac, body: Bytes, sig: Bytes, purpose: Bytes, now: int)
    requires body != [] && sig != [] && DOT !in body && Decode(sig).Some? && Decode(sig).value != mac(body)
    ensures Verify(mac, purpose, body + [DOT] + sig, now) == Err(BadSignature)
  {
    var tok := body + [DOT] + sig;
    FirstSeparator(body, sig, DOT);
    assert tok[..|body|] == body && tok[|body| + 1..] == sig;
  }

  // --- decimals --------------------------------------------------------------------------------------

  lemma {:induction false} OnlyDigitsParse(s: Bytes)
    ensures ParseDigits(s).Some? <==> forall i :: 0 <= i < |s| ==> 48 <= s[i] <= 57
  {
    if s != [] {
      OnlyDigitsParse(s[..|s| - 1]);
    }
  }

  lemma {:induction false} LeadingZero(s: Bytes)
    ensures ParseDigits([48] + s) == ParseDigits(s)
  {
    var t := [48] + s;
    if s == [] {
      assert t[..0] == [];
    } else {
      LeadingZero(s[..|s| - 1]);
      assert t[..|t| - 1] == [48] + s[..|s| - 1];
    }
  }

  /** Only an optional sign and digits are a decimal, and only one that fits an int64. */
  lemma DecimalsOnly(s: Bytes)
    ensures ParseInt(s).Some? ==>
      var d := if s[0] == MINUS || s[0] == PLUS then s[1..] else s;
      d != [] && (forall i :: 0 <= i < |d| ==> 48 <= d[i] <= 57) && IsInt64(ParseInt(s).value)
  {
    if ParseInt(s).Some? {
      OnlyDigitsParse(if s[0] == MINUS || s[0] == PLUS then s[1..] else s);
    }
  }

  /** No token verifies for two purposes. */
  lemma OnePurposePerToken(mac: Mac, tok: Bytes, p: Bytes, q: Bytes, now: int, later: int)
    requires Verify(mac, p, tok, now).Ok? && Verify(mac, q, tok, later).Ok?
    ensures p == q && Verify(mac, p, tok, now) == Verify(mac, q, tok, later)
  {
  }
}
