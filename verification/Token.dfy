/** How the service finds the user id in the bearer token of a request. */
module Token {
  import opened Wrappers
  import opened Base64Url

  datatype AuthError =
    | MissingMetadata | MissingHeader | MalformedToken | MalformedPayload | MalformedClaims | NoUserId

  datatype Claims = Claims(sub: string, userId: string)

  const BEARER := "Bearer "

  function TrimPrefix(s: string, prefix: string): string {
    if prefix <= s then s[|prefix|..] else s
  }

  /** Index of the first '.' at or after `i`, or the length. */
  function NextDot(s: string, i: nat): (j: nat)
    requires i <= |s|
    ensures i <= j <= |s|
    ensures '.' !in s[i..j]
    ensures j < |s| ==> s[j] == '.'
    decreases |s| - i
  {
    if i == |s| || s[i] == '.' then i
    else
      var j := NextDot(s, i + 1);
      assert s[i..j] == [s[i]] + s[i + 1..j];
      j
  }

  /** The parts between the dots; always at least one. */
  function Split(s: string): seq<string>
    decreases |s|
  {
    var j := NextDot(s, 0);
    if j == |s| then [s] else [s[..j]] + Split(s[j + 1..])
  }

  /** The bytes of the payload, for the values of the authorization header. */
  function ExtractPayload(metadata: Option<seq<string>>): Result<seq<Byte>, AuthError> {
    match metadata
    case None => Err(MissingMetadata)
    case Some(values) =>
      if |values| == 0 then Err(MissingHeader)
      else
        var parts := Split(TrimPrefix(values[0], BEARER));
        if |parts| != 3 then Err(MalformedToken)
        else
          match Decode(Pad(parts[1]))
          case Err(_) => Err(MalformedPayload)
          case Ok(raw) => Ok(raw)
  }

  /** The user id, given how claims are parsed from the payload bytes. */
  function ExtractUserId(metadata: Option<seq<string>>, parse: seq<Byte> -> Option<Claims>):
    Result<string, AuthError>
  {
    match ExtractPayload(metadata)
    case Err(e) => Err(e)
    case Ok(raw) =>
      match parse(raw)
      case None => Err(MalformedClaims)
      case Some(claims) =>
        var id := if claims.sub == "" then claims.userId else claims.sub;
        if id == "" then Err(NoUserId) else Ok(id)
  }

  lemma FirstDotFound(a: string, rest: string)
    requires '.' !in a
    ensures NextDot(a + "." + rest, 0) == |a|
  {
    var s := a + "." + rest;
    var j := NextDot(s, 0);
    assert s[|a|] == '.' && forall k :: 0 <= k < |a| ==> s[k] == a[k];
    assert forall k :: 0 <= k < j ==> s[0..j][k] == s[k];
  }

  lemma SplitFirst(a: string, rest: string)
    requires '.' !in a
    ensures Split(a + "." + rest) == [a] + Split(rest)
  {
    var s := a + "." + rest;
    FirstDotFound(a, rest);
    assert s[..|a|] == a && s[|a| + 1..] == rest;
  }

  lemma SplitLast(a: string)
    requires '.' !in a
    ensures Split(a) == [a]
  {
    assert forall k :: 0 <= k < |a| ==> a[k] != '.';
  }

  /** The compact form of section 7.1 of RFC 7515. */
  function Compact(header: string, payload: seq<Byte>, signature: string): string {
    header + "." + (EncodeRaw(payload) + "." + signature)
  }

  lemma ThreeParts(header: string, part: string, signature: string)
    requires '.' !in header && '.' !in part && '.' !in signature
    ensures Split(header + "." + (part + "." + signature)) == [header, part, signature]
  {
    hide Split;
    SplitLast(signature);
    SplitFirst(part, signature);
    SplitFirst(header, part + "." + signature);
  }

  lemma BearerTrimmed(token: string)
    ensures TrimPrefix(BEARER + token, BEARER) == token
    ensures BEARER + token != ""
  {
    assert (BEARER + token)[|BEARER|..] == token;
  }

  /** What extraction does with a token of three parts. */
  lemma ExtractFrom(value: string, header: string, part: string, signature: string, more: seq<string>)
    requires Split(TrimPrefix(value, BEARER)) == [header, part, signature]
    ensures ExtractPayload(Some([value] + more))
         == match Decode(Pad(part)) case Ok(raw) => Ok(raw) case Err(_) => Err(MalformedPayload)
  {
    hide Split, TrimPrefix, Decode, Pad;
  }

  /** Every payload comes back from a compact token, with or without the scheme prefix. */
  lemma PayloadRecovered(header: string, payload: seq<Byte>, signature: string, more: seq<string>)
    requires '.' !in header && '.' !in signature
    ensures ExtractPayload(Some([BEARER + Compact(header, payload, signature)] + more)) == Ok(payload)
    ensures !(BEARER <= Compact(header, payload, signature)) ==>
              ExtractPayload(Some([Compact(header, payload, signature)] + more)) == Ok(payload)
  {
    var token, encoded := Compact(header, payload, signature), EncodeRaw(payload);
    EncodedOverAlphabet(payload);
    AlphabetHasNoBreaks(encoded);
    hide EncodeRaw, Decode, Pad, ExtractPayload, Split, OverAlphabet;
    ThreeParts(header, encoded, signature);
    PaddingRepairRoundTrip(payload);
    BearerTrimmed(token);
    ExtractFrom(BEARER + token, header, encoded, signature, more);
    if !(BEARER <= token) {
      ExtractFrom(token, header, encoded, signature, more);
    }
  }

  /** A token with three parts whose payload uses the alphabet, with or without the scheme
      prefix, is rejected for its payload exactly when the payload has one character too many
      for whole groups. */
  lemma RejectedExactly(header: string, part: string, signature: string, more: seq<string>)
    requires '.' !in header && '.' !in signature && OverAlphabet(part)
    ensures var token := header + "." + (part + "." + signature);
            && (ExtractPayload(Some([BEARER + token] + more)) == Err(MalformedPayload) <==> |part| % 4 == 1)
            && (!(BEARER <= token) ==>
                  (ExtractPayload(Some([token] + more)) == Err(MalformedPayload) <==> |part| % 4 == 1))
  {
    AlphabetHasNoBreaks(part);
    hide *;
    var token := header + "." + (part + "." + signature);
    ThreeParts(header, part, signature);
    DecodesExactly(part);
    BearerTrimmed(token);
    ExtractFrom(BEARER + token, header, part, signature, more);
    if !(BEARER <= token) {
      NothingTrimmed(token);
      ExtractFrom(token, header, part, signature, more);
    }
  }

  lemma NothingTrimmed(token: string)
    requires !(BEARER <= token)
    ensures TrimPrefix(token, BEARER) == token
  {
  }

  /** End to end: the user id is chosen from the claims in the payload the token was made with.
      `sub` wins over `user_id`, and an empty id is an error. */
  lemma UserIdRecovered(header: string, payload: seq<Byte>, signature: string, more: seq<string>,
                        parse: seq<Byte> -> Option<Claims>)
    requires '.' !in header && '.' !in signature
    ensures var id := ExtractUserId(Some([BEARER + Compact(header, payload, signature)] + more), parse);
            && (parse(payload).None? ==> id == Err(MalformedClaims))
            && (forall claims :: parse(payload) == Some(claims) ==>
                  id == if claims.sub != "" then Ok(claims.sub)
                        else if claims.userId != "" then Ok(claims.userId) else Err(NoUserId))
  {
    hide ExtractPayload, Compact;
    PayloadRecovered(header, payload, signature, more);
  }

  // ----- which authorization values are accepted

  /** `token` consists of three parts between dots, the middle one being `part`. */
  ghost predicate HasPayload(token: string, part: string) {
    exists header, signature ::
      '.' !in header && '.' !in part && '.' !in signature && token == header + "." + (part + "." + signature)
  }

  lemma SplitRebuilds(s: string)
    ensures Split(s) != [] && '.' !in Split(s)[0]
    ensures |Split(s)| == 1 ==> s == Split(s)[0]
    ensures |Split(s)| > 1 ==>
              exists rest :: Split(rest) == Split(s)[1..] && s == Split(s)[0] + "." + rest
  {
    var j := NextDot(s, 0);
    assert s[0..j] == s[..j];
    if j < |s| {
      assert s == s[..j] + "." + s[j + 1..];
      assert Split(s[j + 1..]) == Split(s)[1..];
    }
  }

  lemma ThreePartsExactly(token: string, part: string)
    ensures HasPayload(token, part) <==> |Split(token)| == 3 && Split(token)[1] == part
  {
    hide Split;
    if HasPayload(token, part) {
      var header, signature :|
        '.' !in header && '.' !in part && '.' !in signature && token == header + "." + (part + "." + signature);
      ThreeParts(header, part, signature);
    }
    if |Split(token)| == 3 && Split(token)[1] == part {
      SplitRebuilds(token);
      var rest :| Split(rest) == Split(token)[1..] && token == Split(token)[0] + "." + rest;
      SplitRebuilds(rest);
      var last :| Split(last) == Split(rest)[1..] && rest == Split(rest)[0] + "." + last;
      SplitRebuilds(last);
    }
  }

  /** A payload is found exactly if the header value, without the scheme prefix, has three
      parts and the middle one decodes; without three parts it is a malformed token. */
  lemma PayloadFoundExactly(value: string, more: seq<string>, raw: seq<Byte>)
    ensures ExtractPayload(Some([value] + more)) == Ok(raw)
       <==> exists part :: HasPayload(TrimPrefix(value, BEARER), part) && Decode(Pad(part)) == Ok(raw)
    ensures ExtractPayload(Some([value] + more)) == Err(MalformedToken)
       <==> !exists part :: HasPayload(TrimPrefix(value, BEARER), part)
  {
    hide Split, TrimPrefix, Decode, Pad, HasPayload;
    var token := TrimPrefix(value, BEARER);
    forall part
      ensures HasPayload(token, part) <==> |Split(token)| == 3 && Split(token)[1] == part
    {
      ThreePartsExactly(token, part);
    }
    if |Split(token)| == 3 {
      assert HasPayload(token, Split(token)[1]);
    }
  }

  /** `claims` name the user `id`. */
  predicate Names(claims: Claims, id: string) {
    id != "" && (claims.sub == id || (claims.sub == "" && claims.userId == id))
  }

  /** The first authorization value of a request, if there is one. */
  ghost predicate FirstValue(metadata: Option<seq<string>>, value: string) {
    metadata.Some? && metadata.value != [] && metadata.value[0] == value
  }

  /** The authorization value carries a payload that decodes to `raw`. */
  ghost predicate Carries(metadata: Option<seq<string>>, raw: seq<Byte>) {
    exists value, part ::
      FirstValue(metadata, value) && HasPayload(TrimPrefix(value, BEARER), part) && Decode(Pad(part)) == Ok(raw)
  }

  lemma PayloadCarried(metadata: Option<seq<string>>, raw: seq<Byte>)
    ensures ExtractPayload(metadata) == Ok(raw) <==> Carries(metadata, raw)
  {
    hide HasPayload, TrimPrefix, Decode, Pad, ExtractPayload;
    if metadata.Some? && metadata.value != [] {
      var values := metadata.value;
      assert values == [values[0]] + values[1..];
      PayloadFoundExactly(values[0], values[1..], raw);
      if ExtractPayload(metadata) == Ok(raw) {
        var part :| HasPayload(TrimPrefix(values[0], BEARER), part) && Decode(Pad(part)) == Ok(raw);
        assert FirstValue(metadata, values[0]);
      }
    } else {
      NothingToExtract(metadata);
    }
  }

  lemma NothingToExtract(metadata: Option<seq<string>>)
    requires metadata.None? || metadata.value == []
    ensures ExtractPayload(metadata).Err?
  {
  }

  /** Which requests yield a user id, and which id: metadata with a first authorization value of three
      parts, a middle part that decodes, claims that parse and name the user. */
  lemma UserIdFoundExactly(metadata: Option<seq<string>>, parse: seq<Byte> -> Option<Claims>, id: string)
    ensures ExtractUserId(metadata, parse) == Ok(id)
       <==> exists raw, claims :: Carries(metadata, raw) && parse(raw) == Some(claims) && Names(claims, id)
  {
    hide ExtractPayload, Carries;
    forall raw
      ensures ExtractPayload(metadata) == Ok(raw) <==> Carries(metadata, raw)
    {
      PayloadCarried(metadata, raw);
    }
    if ExtractUserId(metadata, parse) == Ok(id) {
      var raw := ExtractPayload(metadata).value;
      assert Carries(metadata, raw) && parse(raw) == Some(parse(raw).value) && Names(parse(raw).value, id);
    }
  }

  /** Why a request without a usable authorization header yields no user id. */
  lemma MissingExactly(metadata: Option<seq<string>>, parse: seq<Byte> -> Option<Claims>)
    ensures ExtractUserId(metadata, parse) == Err(MissingMetadata) <==> metadata == None
    ensures ExtractUserId(metadata, parse) == Err(MissingHeader) <==> metadata == Some([])
  {
  }

  /** Why a request with an authorization value yields none: each error has exactly its own cause. */
  lemma ErrorsExactly(value: string, more: seq<string>, parse: seq<Byte> -> Option<Claims>)
    ensures var id, token := ExtractUserId(Some([value] + more), parse), TrimPrefix(value, BEARER);
            && (id == Err(MalformedToken) <==> !exists part :: HasPayload(token, part))
            && (id == Err(MalformedPayload) <==> exists part :: HasPayload(token, part) && Decode(Pad(part)).Err?)
            && (id == Err(MalformedClaims)
                <==> exists part, raw :: HasPayload(token, part) && Decode(Pad(part)) == Ok(raw) && parse(raw).None?)
            && (id == Err(NoUserId)
                <==> exists part, raw :: HasPayload(token, part) && Decode(Pad(part)) == Ok(raw)
                                         && parse(raw) == Some(Claims("", "")))
            && id != Err(MissingMetadata) && id != Err(MissingHeader)
  {
    hide Split, TrimPrefix, Decode, Pad, HasPayload;
    var token := TrimPrefix(value, BEARER);
    forall part
      ensures HasPayload(token, part) <==> |Split(token)| == 3 && Split(token)[1] == part
    {
      ThreePartsExactly(token, part);
    }
    if |Split(token)| == 3 {
      assert HasPayload(token, Split(token)[1]);
    }
  }

  /** The scheme prefix is removed once, from the front, and only as it is written here. */
  lemma PrefixTrimmedExactly(value: string, token: string)
    ensures TrimPrefix("Bearer " + token, BEARER) == token
    ensures !("Bearer " <= value) ==> TrimPrefix(value, BEARER) == value
  {
    BearerTrimmed(token);
  }
}
