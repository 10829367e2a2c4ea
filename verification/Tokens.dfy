/**
 Product tokens: nine dot-separated parts, signed.  Issuing prints claims,
 verifying parses and checks them.
 */
module Tokens {
  import opened Tables
  import opened Decimal
  import opened Patterns

  // ---------- Texts ----------

  predicate DotFree(s: string)
  {
    '.' !in s
  }

  function Join(parts: seq<string>): string
    requires parts != []
  {
    if |parts| == 1 then parts[0] else parts[0] + "." + Join(parts[1..])
  }

  function Split(s: string): (parts: seq<string>)
    ensures parts != []
  {
    if s == "" then [""]
    else
      var rest := Split(s[1..]);
      if s[0] == '.' then [""] + rest else [[s[0]] + rest[0]] + rest[1..]
  }

  lemma {:induction false} SplitOfDotFree(s: string)
    requires DotFree(s)
    ensures Split(s) == [s]
  {
    if s != "" {
      SplitOfDotFree(s[1..]);
      assert [s[0]] + s[1..] == s;
    }
  }

  lemma {:induction false} SplitAtDot(s: string, t: string)
    requires DotFree(s)
    ensures Split(s + "." + t) == [s] + Split(t)
  {
    var all := s + "." + t;
    if s == "" {
      assert all[1..] == t;
    } else {
      assert all[1..] == s[1..] + "." + t;
      SplitAtDot(s[1..], t);
      assert [s[0]] + s[1..] == s;
    }
  }

  /** Splitting undoes joining, for parts without a dot. */
  lemma {:induction false} SplitUndoesJoin(parts: seq<string>)
    requires parts != [] && forall p | p in parts :: DotFree(p)
    ensures Split(Join(parts)) == parts
  {
    if |parts| == 1 {
      SplitOfDotFree(parts[0]);
    } else {
      SplitUndoesJoin(parts[1..]);
      SplitAtDot(parts[0], Join(parts[1..]));
    }
  }

  lemma {:induction false} JoinSnoc(parts: seq<string>, last: string)
    requires parts != []
    ensures Join(parts + [last]) == Join(parts) + "." + last
  {
    if |parts| > 1 {
      assert (parts + [last])[1..] == parts[1..] + [last];
      JoinSnoc(parts[1..], last);
    } else {
      assert (parts + [last])[1..] == [last];
    }
  }

  // ---------- Integers ----------

  const MAX_INT64 := 0x7FFF_FFFF_FFFF_FFFF

  function FormatInt(n: int): string
  {
    if n < 0 then "-" + Numeral(-n) else Numeral(n)
  }

  /** An optional sign and digits, within 64 bits. */
  function ParseInt(s: string): Option<int>
  {
    var digits := if s != "" && s[0] in {'+', '-'} then s[1..] else s;
    if !IsNumeral(digits) then None
    else
      var value: int := if s[0] == '-' then 0 - Value(digits) else Value(digits);
      if -MAX_INT64 - 1 <= value <= MAX_INT64 then Some(value) else None
  }

  lemma ParseUndoesFormat(n: int)
    requires -MAX_INT64 - 1 <= n <= MAX_INT64
    ensures ParseInt(FormatInt(n)) == Some(n) && DotFree(FormatInt(n))
    ensures FormatInt(n) != "" && (FormatInt(n)[0] == '-' <==> n < 0)
  {
    var m := if n < 0 then -n else n;
    NumeralHasValue(m);
    assert IsNumeral(Numeral(m));
    assert IsDigit(Numeral(m)[0]);
    if n < 0 {
      assert FormatInt(n)[1..] == Numeral(m);
    }
  }

  /** A text is read as an integer just when it is one of 64 bits, with a sign or without. */
  lemma ParsesExactly(s: string, n: int)
    ensures ParseInt(s) == Some(n) <==>
              exists sign, digits ::
                && s == sign + digits && sign in {"", "+", "-"} && IsNumeral(digits)
                && (if sign == "-" then n + Value(digits) == 0 else n == Value(digits))
                && -0x8000_0000_0000_0000 <= n <= 0x7FFF_FFFF_FFFF_FFFF
  {
    if ParseInt(s) == Some(n) {
      var sign, digits := if s[0] in {'+', '-'} then [s[0]] else "", if s[0] in {'+', '-'} then s[1..] else s;
      assert s == sign + digits;
    }
    if sign, digits :|
      && s == sign + digits && sign in {"", "+", "-"} && IsNumeral(digits)
      && (if sign == "-" then n + Value(digits) == 0 else n == Value(digits))
      && -0x8000_0000_0000_0000 <= n <= 0x7FFF_FFFF_FFFF_FFFF
    {
      if sign == "" {
        assert s == digits && IsDigit(s[0]);
      } else {
        assert s[1..] == digits;
      }
    }
  }

  // ---------- Claims ----------

  const PRODUCTS := {"linka-plays", "linka-looks", "linka-pictures", "linka-type", "linka-paperboard", "linka-site", "linka-tts"}

  /** Times in nanoseconds. */
  datatype Claims = Claims(
    product: string, subject: string, person: Option<string>, org: Option<string>, issuedAt: int, expiresAt: int)

  datatype ServiceKey = ServiceKey(id: string, secret: string)

  /** A safe name, and a secret of at least 32 bytes. */
  ghost predicate KeyOk(key: ServiceKey)
  {
    IsSafeName(key.id, "-") && |key.secret| >= 32
  }

  type Bytes = seq<bv8>

  /** HMAC-SHA-256, its hex form, and unpadded URL-safe base64. */
  datatype Crypto = Crypto(
    mac: (string, string) -> Bytes, hex: Bytes -> string, encode: Bytes -> string, decode: string -> Option<Bytes>)

  /** Encoding can be undone and uses no dot. */
  ghost predicate CodecOk(crypto: Crypto)
  {
    forall bytes :: crypto.decode(crypto.encode(bytes)) == Some(bytes) && DotFree(crypto.encode(bytes))
  }

  datatype Tokens = Tokens(active: ServiceKey, previous: Option<ServiceKey>, subjectSecret: string, ttl: int)

  const SECOND := 1_000_000_000
  const FIVE_MINUTES := 300 * SECOND
  const YEAR := 365 * 24 * 3600 * SECOND

  /** What the constructor checks: a lifetime of at most 365 days. */
  ghost predicate TokensOk(t: Tokens)
  {
    && KeyOk(t.active) && (t.previous.Some? ==> KeyOk(t.previous.value) && t.previous.value.id != t.active.id)
    && 0 < t.ttl <= 31_536_000_000_000_000 && |t.subjectSecret| >= 32
  }

  /** Takes the keys and the lifetime only if they will do. */
  method NewProductTokens(active: ServiceKey, previous: Option<ServiceKey>, subjectSecret: string, ttl: int) returns (made: Option<Tokens>)
    ensures made.Some? <==> TokensOk(Tokens(active, previous, subjectSecret, ttl))
    ensures made.Some? ==> made.value == Tokens(active, previous, subjectSecret, ttl)
  {
    var ok := ValidateServiceKey(active);
    if !ok {
      return None;
    }
    if previous.Some? {
      ok := ValidateServiceKey(previous.value);
      if !ok || previous.value.id == active.id {
        return None;
      }
    }
    if ttl <= 0 || ttl > YEAR || |subjectSecret| < 32 {
      return None;
    }
    made := Some(Tokens(active, previous, subjectSecret, ttl));
  }

  /** The pattern, and the length of the secret. */
  method ValidateServiceKey(key: ServiceKey) returns (ok: bool)
    ensures ok <==> KeyOk(key)
  {
    NamesAreSafe(key.id);
    ok := IsName(key.id, false) && |key.secret| >= 32;
  }

  function KeyNamed(t: Tokens, id: string): Option<ServiceKey>
  {
    if id == t.active.id then Some(t.active)
    else if t.previous.Some? && id == t.previous.value.id then t.previous
    else None
  }

  function EncodeOptional(key: Option<string>): string
  {
    if key.None? then "-" else key.value
  }

  /** None when the part is neither a dash nor an opaque key. */
  function DecodeOptional(part: string): Option<Option<string>>
  {
    if part == "-" then Some(None) else if IsOpaqueKey(part) then Some(Some(part)) else None
  }

  const VERSION := "v2"
  const CONTEXT := "linka-product-token-v2\n"

  predicate ScopeOk(claims: Claims)
  {
    && claims.product in PRODUCTS && IsOpaqueKey(claims.subject)
    && (claims.person.Some? ==> IsOpaqueKey(claims.person.value))
    && (claims.org.Some? ==> IsOpaqueKey(claims.org.value))
  }

  function Unix(at: int): int
  {
    at / SECOND
  }

  function UnsignedParts(keyId: string, claims: Claims): seq<string>
  {
    [VERSION, keyId, claims.product, claims.subject, EncodeOptional(claims.person), EncodeOptional(claims.org),
     FormatInt(Unix(claims.issuedAt)), FormatInt(Unix(claims.expiresAt))]
  }

  /** Signed claims and their token, if the scope is acceptable. */
  function Issue(t: Tokens, crypto: Crypto, claims: Claims, now: int): Option<(Claims, string)>
  {
    if !ScopeOk(claims) then None
    else
      var issuedAt := Unix(now) * SECOND;
      var issued := claims.(issuedAt := issuedAt, expiresAt := issuedAt + t.ttl);
      var unsigned := Join(UnsignedParts(t.active.id, issued));
      Some((issued, unsigned + "." + crypto.encode(crypto.mac(t.active.secret, CONTEXT + unsigned))))
  }

  /** A token for an installation of a product, without person and organisation. */
  function IssueAnonymous(t: Tokens, crypto: Crypto, product: string, installation: string, now: int): Option<(Claims, string)>
  {
    if product !in PRODUCTS then None
    else
      var subject := crypto.hex(crypto.mac(t.subjectSecret, "linka-product-subject-v2\n" + product + "\n" + installation));
      Issue(t, crypto, Claims(product, subject, None, None, 0, 0), now)
  }

  function Verify(t: Tokens, crypto: Crypto, token: string, now: int): Option<Claims>
  {
    var parts := Split(token);
    if |parts| != 9 || parts[0] != VERSION then None
    else
      var key := KeyNamed(t, parts[1]);
      if key.None? then None
      else
        var provided := crypto.decode(parts[8]);
        if provided.None? || provided.value != crypto.mac(key.value.secret, CONTEXT + Join(parts[..8])) then None
        else if parts[2] !in PRODUCTS || !IsOpaqueKey(parts[3]) then None
        else
          var person, org := DecodeOptional(parts[4]), DecodeOptional(parts[5]);
          var issued, expires := ParseInt(parts[6]), ParseInt(parts[7]);
          if person.None? || org.None? || issued.None? || expires.None? then None
          else
            var claims := Claims(parts[2], parts[3], person.value, org.value, issued.value * SECOND, expires.value * SECOND);
            if claims.issuedAt > now + FIVE_MINUTES || claims.expiresAt <= now || claims.expiresAt <= claims.issuedAt then None
            else Some(claims)
  }

  // ---------- Round trip ----------

  /** The clock reads a time whose seconds fit 64 bits for a year to come. */
  predicate ClockOk(now: int)
  {
    (-MAX_INT64 - 1) * SECOND <= now && now + YEAR + SECOND <= MAX_INT64 * SECOND
  }

  lemma OpaqueIsDotFree(key: string)
    requires IsOpaqueKey(key)
    ensures DotFree(key) && key != "-"
  {
  }

  lemma ProductIsDotFree(product: string)
    requires product in PRODUCTS
    ensures DotFree(product)
  {
  }

  lemma OptionalIsDotFree(key: Option<string>)
    requires key.Some? ==> IsOpaqueKey(key.value)
    ensures DotFree(EncodeOptional(key))
  {
    if key.Some? {
      OpaqueIsDotFree(key.value);
    }
  }

  lemma NameIsDotFree(name: string)
    requires IsSafeName(name, "-")
    ensures DotFree(name)
  {
  }

  lemma PartsAreDotFree(t: Tokens, claims: Claims)
    requires TokensOk(t) && ScopeOk(claims)
    requires -MAX_INT64 - 1 <= Unix(claims.issuedAt) <= MAX_INT64 && -MAX_INT64 - 1 <= Unix(claims.expiresAt) <= MAX_INT64
    ensures forall p | p in UnsignedParts(t.active.id, claims) :: DotFree(p)
  {
    ParseUndoesFormat(Unix(claims.issuedAt));
    ParseUndoesFormat(Unix(claims.expiresAt));
    ProductIsDotFree(claims.product);
    OpaqueIsDotFree(claims.subject);
    OptionalIsDotFree(claims.person);
    OptionalIsDotFree(claims.org);
    NameIsDotFree(t.active.id);
    assert DotFree(VERSION);
    hide DotFree, FormatInt, EncodeOptional, Unix, ScopeOk, KeyOk, TokensOk;
  }

  lemma OptionalRoundTrip(key: Option<string>)
    requires key.Some? ==> IsOpaqueKey(key.value)
    ensures DecodeOptional(EncodeOptional(key)) == Some(key)
  {
  }

  /** Splitting a token gives its parts back. */
  lemma TokenParts(t: Tokens, crypto: Crypto, claims: Claims)
    requires TokensOk(t) && ScopeOk(claims) && CodecOk(crypto)
    requires -MAX_INT64 - 1 <= Unix(claims.issuedAt) <= MAX_INT64 && -MAX_INT64 - 1 <= Unix(claims.expiresAt) <= MAX_INT64
    ensures var parts := UnsignedParts(t.active.id, claims);
            var signature := crypto.encode(crypto.mac(t.active.secret, CONTEXT + Join(parts)));
            Split(Join(parts) + "." + signature) == parts + [signature]
  {
    var parts := UnsignedParts(t.active.id, claims);
    var signature := crypto.encode(crypto.mac(t.active.secret, CONTEXT + Join(parts)));
    PartsAreDotFree(t, claims);
    assert DotFree(signature);
    hide UnsignedParts, DotFree, ScopeOk, TokensOk, Unix, Join, Split;
    JoinSnoc(parts, signature);
    SplitUndoesJoin(parts + [signature]);
  }

  /** The claims a verifier reads: times cut to whole seconds. */
  function Cut(claims: Claims): Claims
  {
    claims.(issuedAt := Unix(claims.issuedAt) * SECOND, expiresAt := Unix(claims.expiresAt) * SECOND)
  }

  /** When claims read from a token are good at a time. */
  predicate InWindow(claims: Claims, now: int)
  {
    claims.issuedAt <= now + FIVE_MINUTES && now < claims.expiresAt && claims.issuedAt < claims.expiresAt
  }

  /** A verifier that knows the issuer's key reads the printed claims back, within their window. */
  lemma VerifyReadsIssued(t: Tokens, v: Tokens, crypto: Crypto, claims: Claims, later: int)
    requires TokensOk(t) && ScopeOk(claims) && CodecOk(crypto) && KeyNamed(v, t.active.id) == Some(t.active)
    requires -MAX_INT64 - 1 <= Unix(claims.issuedAt) <= MAX_INT64 && -MAX_INT64 - 1 <= Unix(claims.expiresAt) <= MAX_INT64
    ensures var unsigned := Join(UnsignedParts(t.active.id, claims));
            Verify(v, crypto, unsigned + "." + crypto.encode(crypto.mac(t.active.secret, CONTEXT + unsigned)), later)
              == if InWindow(Cut(claims), later) then Some(Cut(claims)) else None
  {
    var parts := UnsignedParts(t.active.id, claims);
    var signature := crypto.encode(crypto.mac(t.active.secret, CONTEXT + Join(parts)));
    TokenParts(t, crypto, claims);
    assert (parts + [signature])[..8] == parts;
    OptionalRoundTrip(claims.person);
    OptionalRoundTrip(claims.org);
    ParseUndoesFormat(Unix(claims.issuedAt));
    ParseUndoesFormat(Unix(claims.expiresAt));
    hide Split, Join, FormatInt, ParseInt, EncodeOptional, DecodeOptional, IsOpaqueKey, DotFree, Unix, KeyNamed, TokensOk;
  }

  /** What a token may be issued for: one of the seven products, and opaque keys. */
  ghost predicate MayBeIssued(claims: Claims)
  {
    && claims.product in {"linka-plays", "linka-looks", "linka-pictures", "linka-type", "linka-paperboard", "linka-site", "linka-tts"}
    && IsHexDigest(claims.subject)
    && (claims.person.Some? ==> IsHexDigest(claims.person.value))
    && (claims.org.Some? ==> IsHexDigest(claims.org.value))
  }

  /** The claims as issued: what was asked for, from the second of issue on, for the lifetime. */
  ghost predicate IsIssuedFor(issued: Claims, claims: Claims, now: int, ttl: int)
  {
    && issued.product == claims.product && issued.subject == claims.subject
    && issued.person == claims.person && issued.org == claims.org
    && issued.issuedAt % 1_000_000_000 == 0 && issued.issuedAt <= now < issued.issuedAt + 1_000_000_000
    && issued.expiresAt == issued.issuedAt + ttl
  }

  /** When a token is issued, and for what. */
  lemma IssuesExactly(t: Tokens, crypto: Crypto, claims: Claims, now: int)
    ensures Issue(t, crypto, claims, now).Some? <==> MayBeIssued(claims)
    ensures Issue(t, crypto, claims, now).Some? ==> IsIssuedFor(Issue(t, crypto, claims, now).value.0, claims, now, t.ttl)
  {
    OpaqueIsHexDigest(claims.subject);
    if claims.person.Some? {
      OpaqueIsHexDigest(claims.person.value);
    }
    if claims.org.Some? {
      OpaqueIsHexDigest(claims.org.value);
    }
    hide IsOpaqueKey, IsHexDigest, Join, UnsignedParts;
  }

  /** What stands in an issued token, part by part. */
  lemma IssuedTokenReads(t: Tokens, crypto: Crypto, claims: Claims, now: int)
    requires TokensOk(t) && CodecOk(crypto) && ClockOk(now) && MayBeIssued(claims)
    ensures Issue(t, crypto, claims, now).Some?
    ensures var (issued, token) := Issue(t, crypto, claims, now).value;
            var parts := Split(token);
            && |parts| == 9 && parts[0] == "v2" && parts[1] == t.active.id
            && parts[2] == claims.product && parts[3] == claims.subject
            && parts[4] == (if claims.person.Some? then claims.person.value else "-")
            && parts[5] == (if claims.org.Some? then claims.org.value else "-")
            && ParseInt(parts[6]) == Some(issued.issuedAt / 1_000_000_000)
            && ParseInt(parts[7]) == Some(issued.expiresAt / 1_000_000_000)
            && crypto.decode(parts[8]) == Some(crypto.mac(t.active.secret, "linka-product-token-v2\n" + Join(parts[..8])))
  {
    IssuesExactly(t, crypto, claims, now);
    var (issued, token) := Issue(t, crypto, claims, now).value;
    IssuedSeconds(now, t.ttl);
    TokenParts(t, crypto, issued);
    ParseUndoesFormat(Unix(issued.issuedAt));
    ParseUndoesFormat(Unix(issued.expiresAt));
    var parts := UnsignedParts(t.active.id, issued);
    var signature := crypto.encode(crypto.mac(t.active.secret, CONTEXT + Join(parts)));
    assert (parts + [signature])[..8] == parts;
    hide Split, Join, FormatInt, ParseInt, IsOpaqueKey, IsHexDigest, TokensOk;
  }

  /**
   The round trip: whatever a token may be issued for, a verifier with the
   issuer's key, active or previous, reads it back with the second of issue and
   the end of the lifetime, just when the lifetime is a whole number of seconds,
   the verifier's clock is not more than five minutes behind the time of issue,
   and the token has not expired.
   */
  lemma RoundTrip(t: Tokens, v: Tokens, crypto: Crypto, claims: Claims, now: int, later: int) returns (at: int)
    requires TokensOk(t) && TokensOk(v) && CodecOk(crypto) && ClockOk(now)
    requires v.active == t.active || v.previous == Some(t.active)
    requires MayBeIssued(claims)
    ensures at % 1_000_000_000 == 0 && at <= now < at + 1_000_000_000
    ensures Issue(t, crypto, claims, now).Some?
    ensures Verify(v, crypto, Issue(t, crypto, claims, now).value.1, later) ==
              Some(Claims(claims.product, claims.subject, claims.person, claims.org, at, at + t.ttl)) <==>
              t.ttl % 1_000_000_000 == 0 && at <= later + 300_000_000_000 && later < at + t.ttl
  {
    IssuesExactly(t, crypto, claims, now);
    var (issued, token) := Issue(t, crypto, claims, now).value;
    at := issued.issuedAt;
    assert issued == Claims(claims.product, claims.subject, claims.person, claims.org, at, at + t.ttl);
    IssuedSeconds(now, t.ttl);
    assert KeyNamed(v, t.active.id) == Some(t.active);
    hide Verify, Join, CodecOk, KeyNamed, TokensOk, MayBeIssued;
    VerifyReadsIssued(t, v, crypto, issued, later);
  }

  /** HMAC-SHA-256 in hex is taken to be injective; it has 64 digits. */
  ghost predicate HexOk(crypto: Crypto)
  {
    && (forall secret, text :: IsHexDigest(crypto.hex(crypto.mac(secret, text))))
    && (forall secret, a, b :: crypto.hex(crypto.mac(secret, a)) == crypto.hex(crypto.mac(secret, b)) ==> a == b)
  }

  /** What the subject is derived from. */
  function SubjectText(product: string, installation: string): string
  {
    "linka-product-subject-v2\n" + product + "\n" + installation
  }

  lemma AnonymousClaims(t: Tokens, crypto: Crypto, product: string, installation: string, now: int)
    requires HexOk(crypto)
    ensures var a := IssueAnonymous(t, crypto, product, installation, now);
            && (a.Some? <==> product in {"linka-plays", "linka-looks", "linka-pictures", "linka-type", "linka-paperboard", "linka-site",
                                         "linka-tts"})
            && (a.Some? ==>
                  && a.value.0.product == product && a.value.0.person.None? && a.value.0.org.None?
                  && a.value.0.subject == crypto.hex(crypto.mac(t.subjectSecret, SubjectText(product, installation))))
  {
    IssuesExactly(t, crypto, Claims(product, crypto.hex(crypto.mac(t.subjectSecret, SubjectText(product, installation))), None, None, 0, 0), now);
    hide Issue, IsHexDigest;
  }

  lemma TextsDiffer(product: string, installation: string, product': string, installation': string)
    requires product in PRODUCTS && product' in PRODUCTS
    ensures SubjectText(product, installation) == SubjectText(product', installation') <==> product == product' && installation == installation'
  {
    if SubjectText(product, installation) == SubjectText(product', installation') {
      ProductEndsAtNewline("linka-product-subject-v2\n", product, installation, product', installation');
    }
  }

  /** Each installation gets a token of each product, and of no other, under a subject that is neither another's nor another product's. */
  lemma AnonymousSubjects(
    t: Tokens, crypto: Crypto, product: string, installation: string, product': string, installation': string, now: int, now': int)
    requires HexOk(crypto)
    ensures IssueAnonymous(t, crypto, product, installation, now).Some? <==>
              product in {"linka-plays", "linka-looks", "linka-pictures", "linka-type", "linka-paperboard", "linka-site", "linka-tts"}
    ensures var a, b := IssueAnonymous(t, crypto, product, installation, now), IssueAnonymous(t, crypto, product', installation', now');
            a.Some? && b.Some? ==>
              && a.value.0.product == product && a.value.0.person.None? && a.value.0.org.None?
              && (a.value.0.subject == b.value.0.subject <==> product == product' && installation == installation')
  {
    hide IssueAnonymous, SubjectText, IsHexDigest;
    AnonymousClaims(t, crypto, product, installation, now);
    AnonymousClaims(t, crypto, product', installation', now');
    if product in PRODUCTS && product' in PRODUCTS {
      TextsDiffer(product, installation, product', installation');
    }
  }

  lemma ProductEndsAtNewline(prefix: string, product: string, rest: string, product': string, rest': string)
    requires '\n' !in product && '\n' !in product'
    requires prefix + product + "\n" + rest == prefix + product' + "\n" + rest'
    ensures product == product' && rest == rest'
  {
    var s, s' := product + "\n" + rest, product' + "\n" + rest';
    assert (prefix + product + "\n" + rest)[|prefix|..] == s && (prefix + product' + "\n" + rest')[|prefix|..] == s';
    assert s[|product|] == '\n' && s'[|product'|] == '\n';
    assert forall i | 0 <= i < |product| :: s[i] == product[i];
    assert forall i | 0 <= i < |product'| :: s'[i] == product'[i];
    assert |product| == |product'|;
    assert product == s[..|product|] && product' == s'[..|product|];
    assert rest == s[|product| + 1..] && rest' == s'[|product| + 1..];
  }

  lemma IssuedSeconds(now: int, ttl: int)
    requires ClockOk(now) && 0 < ttl <= YEAR
    ensures var issuedAt := Unix(now) * SECOND;
            && -MAX_INT64 - 1 <= Unix(issuedAt) <= MAX_INT64 && -MAX_INT64 - 1 <= Unix(issuedAt + ttl) <= MAX_INT64
            && Unix(issuedAt) * SECOND == issuedAt
            && (Unix(issuedAt + ttl) * SECOND == issuedAt + ttl <==> ttl % SECOND == 0)
  {
  }

  /** A token issued for less than a second is never accepted. */
  lemma ShortLivedIsRejected(t: Tokens, crypto: Crypto, claims: Claims, now: int, later: int)
    requires TokensOk(t) && CodecOk(crypto) && ClockOk(now) && t.ttl < 1_000_000_000
    requires Issue(t, crypto, claims, now).Some?
    ensures Verify(t, crypto, Issue(t, crypto, claims, now).value.1, later) == None
  {
    var (issued, token) := Issue(t, crypto, claims, now).value;
    IssuedSeconds(now, t.ttl);
    hide Verify, Join, CodecOk, KeyNamed, TokensOk;
    VerifyReadsIssued(t, t, crypto, issued, later);
  }

  /** The nine parts say what the claims say. */
  ghost predicate Reads(parts: seq<string>, claims: Claims)
  {
    && |parts| == 9 && parts[0] == "v2"
    && parts[2] == claims.product && parts[3] == claims.subject
    && parts[4] == (if claims.person.Some? then claims.person.value else "-")
    && parts[5] == (if claims.org.Some? then claims.org.value else "-")
    && claims.issuedAt % 1_000_000_000 == 0 && ParseInt(parts[6]) == Some(claims.issuedAt / 1_000_000_000)
    && claims.expiresAt % 1_000_000_000 == 0 && ParseInt(parts[7]) == Some(claims.expiresAt / 1_000_000_000)
  }

  /** The parts are signed with the verifier's key of the name they give; the active key goes first. */
  ghost predicate IsSigned(v: Tokens, crypto: Crypto, parts: seq<string>)
    requires |parts| == 9
  {
    exists key :: && (key == v.active || (v.previous == Some(key) && v.active.id != key.id)) && key.id == parts[1]
                  && crypto.decode(parts[8]) == Some(crypto.mac(key.secret, "linka-product-token-v2\n" + Join(parts[..8])))
  }

  lemma SignedExactly(v: Tokens, crypto: Crypto, parts: seq<string>)
    requires |parts| == 9
    ensures IsSigned(v, crypto, parts) <==>
              && KeyNamed(v, parts[1]).Some?
              && crypto.decode(parts[8]) == Some(crypto.mac(KeyNamed(v, parts[1]).value.secret, CONTEXT + Join(parts[..8])))
  {
    hide Join;
    if KeyNamed(v, parts[1]).Some? {
      var key := KeyNamed(v, parts[1]).value;
      assert (key == v.active || (v.previous == Some(key) && v.active.id != key.id)) && key.id == parts[1];
    }
  }

  /**
   What a verifier accepts: a token that reads as claims which may be issued, that
   is signed with the key it names, issued no more than five minutes ahead of the
   verifier's clock, and not expired.
   */
  lemma VerifiesExactly(v: Tokens, crypto: Crypto, token: string, now: int, claims: Claims)
    ensures Verify(v, crypto, token, now) == Some(claims) <==>
              && Reads(Split(token), claims) && MayBeIssued(claims) && IsSigned(v, crypto, Split(token))
              && claims.issuedAt <= now + 300_000_000_000 && now < claims.expiresAt && claims.issuedAt < claims.expiresAt
  {
    var parts := Split(token);
    if |parts| == 9 {
      OpaqueIsHexDigest(parts[3]);
      OpaqueIsHexDigest(parts[4]);
      OpaqueIsHexDigest(parts[5]);
      hide Split, Join, ParseInt, IsOpaqueKey, IsHexDigest;
      SignedExactly(v, crypto, parts);
      hide KeyNamed, IsSigned;
    }
  }

  /** Whatever is accepted was signed with a key the verifier knows. */
  lemma AcceptedIsSigned(v: Tokens, crypto: Crypto, token: string, now: int)
    requires Verify(v, crypto, token, now).Some?
    ensures exists unsigned, key ::
              && key in {Some(v.active), v.previous} && key.Some?
              && Split(token)[..8] == Split(unsigned)
              && crypto.decode(Split(token)[8]) == Some(crypto.mac(key.value.secret, CONTEXT + unsigned))
  {
    var parts := Split(token);
    var key := KeyNamed(v, parts[1]);
    SplitIsDotFree(token);
    SplitUndoesJoin(parts[..8]);
    assert Split(token)[..8] == Split(Join(parts[..8]));
  }

  lemma {:induction false} SplitIsDotFree(s: string)
    ensures forall p | p in Split(s) :: DotFree(p)
  {
    if s != "" {
      var rest := Split(s[1..]);
      SplitIsDotFree(s[1..]);
      assert rest[0] in rest && forall p | p in rest[1..] :: p in rest;
    }
  }
}
