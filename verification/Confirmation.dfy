/**
 * confirmation.ts: the signed confirmation of a previewed change. The payload travels as
 * pipe-joined text; verifying reads it back, compares what the preview was bound to and checks
 * the window. The codec is any invertible encoding whose output has no dot.
 */
module Confirmation {
  import opened Wrappers
  import opened Decimals

  // ---------------------------------------------------------------- split and join

  /** `String.prototype.split` by one character. */
  function Split(s: string, c: char): (parts: seq<string>)
    ensures |parts| == 1 + Occurrences(s, c)
  {
    if |s| == 0 then [""]
    else
      var rest := Split(s[1..], c);
      if s[0] == c then [""] + rest else [[s[0]] + rest[0]] + rest[1..]
  }

  function Join(parts: seq<string>, c: char): string
    requires |parts| > 0
  {
    if |parts| == 1 then parts[0] else parts[0] + [c] + Join(parts[1..], c)
  }

  function Occurrences(s: string, c: char): nat {
    if |s| == 0 then 0 else (if s[0] == c then 1 else 0) + Occurrences(s[1..], c)
  }

  lemma {:induction false} OccurrencesConcat(s: string, t: string, c: char)
    ensures Occurrences(s + t, c) == Occurrences(s, c) + Occurrences(t, c)
  {
    if |s| == 0 {
      assert s + t == t;
    } else {
      OccurrencesConcat(s[1..], t, c);
      assert (s + t)[1..] == s[1..] + t;
    }
  }

  lemma {:induction false} OccurrencesNone(s: string, c: char)
    ensures Occurrences(s, c) == 0 <==> c !in s
  {
    if |s| > 0 {
      OccurrencesNone(s[1..], c);
      assert s == [s[0]] + s[1..];
    }
  }

  lemma {:induction false} SplitOnce(head: string, tail: string, c: char)
    requires c !in head
    ensures Split(head + [c] + tail, c) == [head] + Split(tail, c)
  {
    var s := head + [c] + tail;
    if |head| == 0 {
      assert s[1..] == tail;
    } else {
      SplitOnce(head[1..], tail, c);
      assert s[1..] == head[1..] + [c] + tail;
      assert head == [head[0]] + head[1..];
    }
  }

  lemma {:induction false} SplitWhole(s: string, c: char)
    requires c !in s
    ensures Split(s, c) == [s]
  {
    if |s| > 0 {
      SplitWhole(s[1..], c);
      assert s == [s[0]] + s[1..];
    }
  }

  lemma {:induction false} SplitJoin(parts: seq<string>, c: char)
    requires |parts| > 0 && forall i :: 0 <= i < |parts| ==> c !in parts[i]
    ensures Split(Join(parts, c), c) == parts
  {
    if |parts| == 1 {
      SplitWhole(parts[0], c);
    } else {
      SplitJoin(parts[1..], c);
      SplitOnce(parts[0], Join(parts[1..], c), c);
    }
  }

  /** The parts put together again are the text, and none holds the separator. */
  lemma {:induction false} JoinSplit(s: string, c: char)
    ensures Join(Split(s, c), c) == s
    ensures forall i :: 0 <= i < |Split(s, c)| ==> c !in Split(s, c)[i]
  {
    if |s| > 0 {
      JoinSplit(s[1..], c);
      var rest, parts := Split(s[1..], c), Split(s, c);
      assert s == [s[0]] + s[1..];
      if s[0] == c {
        assert parts[1..] == rest && parts[0] == "";
      } else {
        assert parts[0] == [s[0]] + rest[0] && parts[1..] == rest[1..];
        assert Join(parts, c) == [s[0]] + Join(rest, c);
      }
    }
  }

  function TotalOccurrences(parts: seq<string>, c: char): nat {
    if |parts| == 0 then 0 else Occurrences(parts[0], c) + TotalOccurrences(parts[1..], c)
  }

  lemma {:induction false} JoinOccurrences(parts: seq<string>, c: char)
    requires |parts| > 0
    ensures Occurrences(Join(parts, c), c) == TotalOccurrences(parts, c) + |parts| - 1
  {
    if |parts| > 1 {
      JoinOccurrences(parts[1..], c);
      OccurrencesConcat(parts[0] + [c], Join(parts[1..], c), c);
      OccurrencesConcat(parts[0], [c], c);
    }
  }

  lemma {:induction false} NoOccurrences(parts: seq<string>, c: char)
    ensures TotalOccurrences(parts, c) == 0 <==> forall i :: 0 <= i < |parts| ==> c !in parts[i]
  {
    if |parts| > 0 {
      NoOccurrences(parts[1..], c);
      OccurrencesNone(parts[0], c);
      assert parts == [parts[0]] + parts[1..];
    }
  }

  // ---------------------------------------------------------------- the payload

  datatype Action = RegisterPrice | ClosePeriod | ReopenPeriod
  datatype Kind = PriceKind | BillingPeriodKind

  function ActionText(a: Action): string {
    match a
    case RegisterPrice => "register_price"
    case ClosePeriod => "close_period"
    case ReopenPeriod => "reopen_period"
  }

  function KindText(k: Kind): string {
    match k case PriceKind => "price" case BillingPeriodKind => "billing_period"
  }

  function ParseAction(s: string): Option<Action> {
    if s == "register_price" then Some(RegisterPrice)
    else if s == "close_period" then Some(ClosePeriod)
    else if s == "reopen_period" then Some(ReopenPeriod)
    else None
  }

  function ParseKind(s: string): Option<Kind> {
    if s == "price" then Some(PriceKind) else if s == "billing_period" then Some(BillingPeriodKind) else None
  }

  datatype Payload = Payload(
    tenant: string, subject: string, action: Action, kind: Kind,
    id: string, etag: string, hash: string, expiresAtMs: nat)

  const FIELD_COUNT: nat := 9

  function Parts(p: Payload): (parts: seq<string>)
    ensures |parts| == FIELD_COUNT
  {
    ["v1", p.tenant, p.subject, ActionText(p.action), KindText(p.kind), p.id, p.etag, p.hash, Decimal(p.expiresAtMs)]
  }

  /** The exact text the MAC covers. */
  function PayloadString(p: Payload): string {
    Join(Parts(p), '|')
  }

  function PayloadOf(data: string): Option<Payload> {
    var parts := Split(data, '|');
    if |parts| != FIELD_COUNT || parts[0] != "v1" || ParseAction(parts[3]).None? || ParseKind(parts[4]).None?
       || |parts[8]| == 0 || !AllDigits(parts[8])
    then None
    else Some(Payload(parts[1], parts[2], ParseAction(parts[3]).value, ParseKind(parts[4]).value,
                      parts[5], parts[6], parts[7], Value(parts[8])))
  }

  /** No text field contains the separator. */
  ghost predicate PipeFree(p: Payload) {
    '|' !in p.tenant && '|' !in p.subject && '|' !in p.id && '|' !in p.etag && '|' !in p.hash
  }

  lemma PartsPipeFree(p: Payload)
    ensures TotalOccurrences(Parts(p), '|') == 0 <==> PipeFree(p)
  {
    var parts := Parts(p);
    assert '|' !in Decimal(p.expiresAtMs) by {
      assert AllDigits(Decimal(p.expiresAtMs));
    }
    NoOccurrences(parts, '|');
    assert parts[1] == p.tenant && parts[2] == p.subject && parts[5] == p.id && parts[6] == p.etag
           && parts[7] == p.hash;
  }

  /** The payload's text falls back into its parts, or into too many. */
  lemma PayloadSplits(p: Payload)
    ensures var parts := Split(PayloadString(p), '|');
            if PipeFree(p) then parts == Parts(p) else |parts| > FIELD_COUNT
  {
    PartsPipeFree(p);
    JoinOccurrences(Parts(p), '|');
    NoOccurrences(Parts(p), '|');
    if PipeFree(p) {
      SplitJoin(Parts(p), '|');
    }
  }

  /** A minted payload reads back as itself when its text fields have no pipe, and as nothing at
      all otherwise: never as another payload. */
  lemma PayloadRoundTrip(p: Payload)
    ensures PayloadOf(PayloadString(p)) == if PipeFree(p) then Some(p) else None
  {
    PayloadSplits(p);
    if PipeFree(p) {
      ValueOfDecimal(p.expiresAtMs);
      assert AllDigits(Decimal(p.expiresAtMs)) && |Decimal(p.expiresAtMs)| > 0;
    }
  }

  /** The text of a payload whose window is spelled `digits`. */
  ghost predicate Spells(data: string, p: Payload, digits: string) {
    && data == Join(["v1", p.tenant, p.subject, ActionText(p.action), KindText(p.kind), p.id, p.etag, p.hash,
        digits], '|')
    && PipeFree(p) && digits != "" && AllDigits(digits) && Value(digits) == p.expiresAtMs
  }

  lemma NineParts(p: Payload, digits: string)
    requires PipeFree(p) && AllDigits(digits)
    ensures var parts := ["v1", p.tenant, p.subject, ActionText(p.action), KindText(p.kind), p.id, p.etag, p.hash,
              digits];
            forall i :: 0 <= i < |parts| ==> '|' !in parts[i]
  {}

  lemma ReadIsSpelled(data: string, p: Payload)
    requires PayloadOf(data) == Some(p)
    ensures exists digits :: Spells(data, p, digits)
  {
    var parts := Split(data, '|');
    JoinSplit(data, '|');
    assert parts == ["v1", p.tenant, p.subject, ActionText(p.action), KindText(p.kind), p.id, p.etag, p.hash, parts[8]];
    assert Spells(data, p, parts[8]);
  }

  lemma SpelledIsRead(data: string, p: Payload, digits: string)
    requires Spells(data, p, digits)
    ensures PayloadOf(data) == Some(p)
  {
    NineParts(p, digits);
    SplitJoin(["v1", p.tenant, p.subject, ActionText(p.action), KindText(p.kind), p.id, p.etag, p.hash, digits], '|');
  }

  /** Of all texts exactly those read as a payload that spell it, version, action and kind included. */
  lemma PayloadReadsIff(data: string, p: Payload)
    ensures PayloadOf(data) == Some(p) <==> exists digits :: Spells(data, p, digits)
  {
    if PayloadOf(data) == Some(p) {
      ReadIsSpelled(data, p);
    } else if digits :| Spells(data, p, digits) {
      SpelledIsRead(data, p, digits);
    }
  }

  // ---------------------------------------------------------------- the token

  datatype Codec = Codec(encode: string -> string, decode: string -> Option<string>, hmac: string -> string)

  ghost predicate CodecHolds(codec: Codec) {
    forall data: string ::
      && codec.decode(codec.encode(data)) == Some(data)
      && '.' !in codec.encode(data) && '.' !in codec.hmac(data)
  }

  function MintConfirmation(p: Payload, codec: Codec): string {
    codec.encode(PayloadString(p)) + "." + codec.hmac(PayloadString(p))
  }

  datatype Field = Tenant | Subject | ActionField | KindField | Id | Etag | Hash

  /** What the confirming tool recomputed; its own expiry plays no part. */
  predicate Agrees(p: Payload, expected: Payload, f: Field) {
    match f
    case Tenant => p.tenant == expected.tenant
    case Subject => p.subject == expected.subject
    case ActionField => p.action == expected.action
    case KindField => p.kind == expected.kind
    case Id => p.id == expected.id
    case Etag => p.etag == expected.etag
    case Hash => p.hash == expected.hash
  }

  datatype Failure = Missing | Malformed | BadSignature | Mismatch(fields: seq<Field>) | Expired

  function DecodeConfirmation(token: Option<string>, codec: Codec): Result<Payload, Failure> {
    if token.None? || token.value == "" then Err(Missing)
    else
      var parts := Split(token.value, '.');
      if |parts| != 2 then Err(Malformed)
      else
        var data := codec.decode(parts[0]);
        if data.None? || PayloadOf(data.value).None? then Err(Malformed)
        else if codec.hmac(data.value) != parts[1] then Err(BadSignature)
        else Ok(PayloadOf(data.value).value)
  }

  function Drifted(p: Payload, expected: Payload, fields: seq<Field>): seq<Field> {
    if |fields| == 0 then []
    else (if Agrees(p, expected, fields[0]) then [] else [fields[0]]) + Drifted(p, expected, fields[1..])
  }

  function MatchConfirmation(p: Payload, expected: Payload, nowMs: int, fields: seq<Field>): Result<Payload, Failure> {
    var drifted := Drifted(p, expected, fields);
    if |drifted| > 0 then Err(Mismatch(drifted))
    else if nowMs >= p.expiresAtMs then Err(Expired)
    else Ok(p)
  }

  function VerifyConfirmation(token: Option<string>, expected: Payload, nowMs: int, codec: Codec, fields: seq<Field>)
    : Result<Payload, Failure>
  {
    var decoded := DecodeConfirmation(token, codec);
    if decoded.Ok? then MatchConfirmation(decoded.value, expected, nowMs, fields) else decoded
  }

  /** Decoding a minted token gives the payload back, or refuses it as malformed when a field
      contains a pipe. */
  lemma MintDecodes(p: Payload, codec: Codec)
    requires CodecHolds(codec)
    ensures DecodeConfirmation(Some(MintConfirmation(p, codec)), codec) == if PipeFree(p) then Ok(p) else Err(Malformed)
  {
    var data := PayloadString(p);
    assert codec.decode(codec.encode(data)) == Some(data);
    SplitOnce(codec.encode(data), codec.hmac(data), '.');
    SplitWhole(codec.hmac(data), '.');
    PayloadRoundTrip(p);
  }

  /** The token is an encoding and a mac, each without a dot, joined by one. */
  predicate IsToken(token: string, encoded: string, mac: string) {
    token == encoded + "." + mac && '.' !in encoded && '.' !in mac
  }

  lemma TokenSplits(token: string, encoded: string, mac: string)
    requires IsToken(token, encoded, mac)
    ensures Split(token, '.') == [encoded, mac]
  {
    SplitOnce(encoded, mac, '.');
    SplitWhole(mac, '.');
  }

  lemma SplitIsToken(token: string, encoded: string, mac: string)
    requires Split(token, '.') == [encoded, mac]
    ensures IsToken(token, encoded, mac)
  {
    JoinSplit(token, '.');
    assert Split(token, '.')[0] == encoded && Split(token, '.')[1] == mac;
    assert [encoded, mac][1..] == [mac];
  }

  lemma TokenParts(token: string, encoded: string, mac: string)
    ensures IsToken(token, encoded, mac) <==> Split(token, '.') == [encoded, mac]
  {
    if IsToken(token, encoded, mac) {
      TokenSplits(token, encoded, mac);
    }
    if Split(token, '.') == [encoded, mac] {
      SplitIsToken(token, encoded, mac);
    }
  }

  /** The token carries `data`, signed. */
  ghost predicate Signed(token: string, data: string, codec: Codec) {
    exists encoded :: IsToken(token, encoded, codec.hmac(data)) && codec.decode(encoded) == Some(data)
  }

  /** Of all tokens, however they came about, exactly those decode to a payload that are an encoding
      of a payload's text and the mac of that very text. */
  lemma DecodesIff(token: string, p: Payload, codec: Codec)
    ensures DecodeConfirmation(Some(token), codec) == Ok(p)
            <==> exists data :: Signed(token, data, codec) && PayloadOf(data) == Some(p)
  {
    var parts := Split(token, '.');
    if DecodeConfirmation(Some(token), codec) == Ok(p) {
      assert parts == [parts[0], parts[1]];
      TokenParts(token, parts[0], parts[1]);
      var data := codec.decode(parts[0]).value;
      assert IsToken(token, parts[0], codec.hmac(data)) && Signed(token, data, codec);
    } else if data :| Signed(token, data, codec) && PayloadOf(data) == Some(p) {
      var encoded :| IsToken(token, encoded, codec.hmac(data)) && codec.decode(encoded) == Some(data);
      TokenParts(token, encoded, codec.hmac(data));
      assert false;
    }
  }

  /** A mac that is not that of the data refuses the token, whatever its fields and the window. */
  lemma WrongMacRefused(token: string, encoded: string, mac: string, data: string, codec: Codec,
                        expected: Payload, nowMs: int, fields: seq<Field>)
    requires IsToken(token, encoded, mac) && codec.decode(encoded) == Some(data) && PayloadOf(data).Some?
    requires mac != codec.hmac(data)
    ensures DecodeConfirmation(Some(token), codec) == Err(BadSignature)
    ensures VerifyConfirmation(Some(token), expected, nowMs, codec, fields) == Err(BadSignature)
  {
    TokenParts(token, encoded, mac);
  }

  /** What is no token at all, or carries no payload's text, is malformed; nothing is missing. */
  lemma MalformedIff(token: string, codec: Codec)
    ensures DecodeConfirmation(Some(token), codec) == Err(Missing) <==> token == ""
    ensures DecodeConfirmation(Some(token), codec) == Err(Malformed)
            <==> token != "" && forall encoded, mac :: IsToken(token, encoded, mac) ==>
                   codec.decode(encoded).None? || PayloadOf(codec.decode(encoded).value).None?
    ensures DecodeConfirmation(None, codec) == Err(Missing)
  {
    var parts := Split(token, '.');
    forall encoded, mac ensures IsToken(token, encoded, mac) <==> parts == [encoded, mac] {
      TokenParts(token, encoded, mac);
    }
    if |parts| == 2 {
      assert parts == [parts[0], parts[1]] && IsToken(token, parts[0], parts[1]);
    }
  }

  /** `CONFIRMATION_FIELDS`. */
  const CONFIRMATION_FIELDS: seq<Field> := [Tenant, Subject, ActionField, KindField, Id, Etag, Hash]

  /** Compared in all fields, payloads agree exactly when they are the same but for the window. */
  lemma AgreesInAll(p: Payload, expected: Payload)
    ensures (forall f :: f in CONFIRMATION_FIELDS ==> Agrees(p, expected, f))
            <==> p == expected.(expiresAtMs := p.expiresAtMs)
  {
    var all := CONFIRMATION_FIELDS;
    assert all[0] == Tenant && all[1] == Subject && all[2] == ActionField && all[3] == KindField;
    assert all[4] == Id && all[5] == Etag && all[6] == Hash;
    if forall f :: f in all ==> Agrees(p, expected, f) {
      assert Agrees(p, expected, Tenant) && Agrees(p, expected, Subject) && Agrees(p, expected, ActionField);
      assert Agrees(p, expected, KindField) && Agrees(p, expected, Id);
      assert Agrees(p, expected, Etag) && Agrees(p, expected, Hash);
    }
  }

  /** Verification with all fields accepts a token exactly when it is signed, its payload is the
      expected one but for the window, and the window is open. */
  lemma AcceptedIff(token: string, p: Payload, expected: Payload, nowMs: int, codec: Codec)
    ensures VerifyConfirmation(Some(token), expected, nowMs, codec, CONFIRMATION_FIELDS) == Ok(p)
            <==> (exists data :: Signed(token, data, codec) && PayloadOf(data) == Some(p))
                 && p == expected.(expiresAtMs := p.expiresAtMs) && nowMs < p.expiresAtMs
  {
    DecodesIff(token, p, codec);
    DriftedFacts(p, expected, CONFIRMATION_FIELDS);
    AgreesInAll(p, expected);
  }

  lemma {:induction false} DriftedFacts(p: Payload, expected: Payload, fields: seq<Field>)
    ensures forall f :: f in Drifted(p, expected, fields) <==> f in fields && !Agrees(p, expected, f)
    ensures |Drifted(p, expected, fields)| == 0 <==> forall f :: f in fields ==> Agrees(p, expected, f)
  {
    if |fields| > 0 {
      DriftedFacts(p, expected, fields[1..]);
      assert fields == [fields[0]] + fields[1..];
    }
  }

  /** Verification of a minted token accepts exactly when every compared field agrees and the
      window is open; when fields drifted it names exactly those; only then does the window count. */
  lemma VerifyAcceptsIff(p: Payload, expected: Payload, nowMs: int, codec: Codec, fields: seq<Field>)
    requires CodecHolds(codec) && PipeFree(p)
    ensures var r := VerifyConfirmation(Some(MintConfirmation(p, codec)), expected, nowMs, codec, fields);
            && (r == Ok(p) <==> (forall f :: f in fields ==> Agrees(p, expected, f)) && nowMs < p.expiresAtMs)
            && (r == Err(Expired) <==> (forall f :: f in fields ==> Agrees(p, expected, f)) && nowMs >= p.expiresAtMs)
            && ((exists f :: f in fields && !Agrees(p, expected, f)) <==> r.Err? && r.error.Mismatch?)
            && (r.Err? && r.error.Mismatch? ==>
                  forall f :: f in r.error.fields <==> f in fields && !Agrees(p, expected, f))
  {
    MintDecodes(p, codec);
    DriftedFacts(p, expected, fields);
  }

  /** A token minted for a payload with a pipe in a field is never accepted, as any payload. */
  lemma PipedTokenRefused(p: Payload, expected: Payload, nowMs: int, codec: Codec, fields: seq<Field>)
    requires CodecHolds(codec) && !PipeFree(p)
    ensures VerifyConfirmation(Some(MintConfirmation(p, codec)), expected, nowMs, codec, fields) == Err(Malformed)
  {
    MintDecodes(p, codec);
  }
}
