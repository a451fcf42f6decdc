/** The principal that travels through the SDK usage record (internal/access/principal.go). */
module Principals {
  import opened Options
  import opened Text

  datatype Principal = Principal(userId: int, apiKeyId: Option<int>)

  const PRINCIPAL_PREFIX := "cliproxy:v1:"

  function EncodePrincipal(userId: int, apiKeyId: int): string {
    PRINCIPAL_PREFIX + FormatInt(userId) + ":" + FormatInt(apiKeyId)
  }

  function PositiveID(value: string): Option<int> {
    var id := ParseInt(value);
    if id.None? || id.value <= 0 then None else id
  }

  predicate HasPrefix(value: string) {
    |value| >= |PRINCIPAL_PREFIX| && value[..|PRINCIPAL_PREFIX|] == PRINCIPAL_PREFIX
  }

  function DecodePrincipal(value: string): Option<Principal> {
    if HasPrefix(value) then
      var parts := Split(value[|PRINCIPAL_PREFIX|..], ':');
      if |parts| != 2 then None
      else
        var userId := PositiveID(parts[0]);
        if userId.None? then None
        else
          var apiKeyId := PositiveID(parts[1]);
          if apiKeyId.None? then None else Some(Principal(userId.value, apiKeyId))
    else
      var userId := PositiveID(value);
      if userId.None? then None else Some(Principal(userId.value, None))
  }

  predicate IsInt64(n: int) {
    -0x8000_0000_0000_0000 <= n <= 0x7FFF_FFFF_FFFF_FFFF
  }

  predicate ValidId(n: int) {
    1 <= n <= 0x7FFF_FFFF_FFFF_FFFF
  }

  lemma NumberHasNoColon(s: string)
    requires ParseInt(s).Some?
    ensures ':' !in s
  {
    ParsedCharacters(s);
  }

  lemma DecodeJoined(a: string, b: string)
    requires ':' !in a && ':' !in b
    ensures DecodePrincipal(PRINCIPAL_PREFIX + a + ":" + b) ==
            if PositiveID(a).Some? && PositiveID(b).Some?
            then Some(Principal(PositiveID(a).value, PositiveID(b))) else None
  {
    var v := PRINCIPAL_PREFIX + a + ":" + b;
    assert v[..|PRINCIPAL_PREFIX|] == PRINCIPAL_PREFIX;
    assert v[|PRINCIPAL_PREFIX|..] == a + [':'] + b;
    SplitAtFirst(a, ':', b);
    SplitNone(b, ':');
  }

  /** For all 64-bit ids: decoding gives both back if both are positive, and refuses otherwise. */
  lemma DecodeEncode(userId: int, apiKeyId: int)
    requires IsInt64(userId) && IsInt64(apiKeyId)
    ensures DecodePrincipal(EncodePrincipal(userId, apiKeyId)) ==
            if userId > 0 && apiKeyId > 0 then Some(Principal(userId, Some(apiKeyId))) else None
  {
    ParseFormat(userId);
    ParseFormat(apiKeyId);
    NumberHasNoColon(FormatInt(userId));
    NumberHasNoColon(FormatInt(apiKeyId));
    DecodeJoined(FormatInt(userId), FormatInt(apiKeyId));
  }

  /** A plain decimal is a legacy principal without a key. */
  lemma DecodePlainDecimal(userId: int)
    requires ValidId(userId)
    ensures DecodePrincipal(FormatInt(userId)) == Some(Principal(userId, None))
  {
    ParseFormat(userId);
    NotPrefixed(FormatInt(userId));
  }

  lemma NotPrefixed(s: string)
    requires ParseInt(s).Some?
    ensures !HasPrefix(s)
  {
    ParsedCharacters(s);
    assert PRINCIPAL_PREFIX[0] == 'c' && !IsDigit('c');
    assert s != "" && s[0] != 'c';
  }

  /** Exactly the strings that decode, and to what: this fixes the language of the decoder. */
  lemma DecodedStrings(value: string, p: Principal)
    ensures DecodePrincipal(value) == Some(p) <==>
            && ValidId(p.userId)
            && match p.apiKeyId
               case None => ParseInt(value) == Some(p.userId)
               case Some(k) =>
                 ValidId(k) && exists a, b ::
                   value == "cliproxy:v1:" + a + ":" + b && ParseInt(a) == Some(p.userId) && ParseInt(b) == Some(k)
  {
    if HasPrefix(value) {
      var parts := Split(value[|PRINCIPAL_PREFIX|..], ':');
      if |parts| == 2 {
        SplitTwoParts(value[|PRINCIPAL_PREFIX|..], ':');
        assert value == value[..|PRINCIPAL_PREFIX|] + value[|PRINCIPAL_PREFIX|..];
        assert value == PRINCIPAL_PREFIX + parts[0] + ":" + parts[1];
      }
      if ParseInt(value).Some? { NotPrefixed(value); }
    }
    if p.apiKeyId.Some? {
      forall a, b | value == PRINCIPAL_PREFIX + a + ":" + b && ParseInt(a) == Some(p.userId) &&
          ParseInt(b) == p.apiKeyId
        ensures ValidId(p.userId) && ValidId(p.apiKeyId.value) ==> DecodePrincipal(value) == Some(p)
      {
        NumberHasNoColon(a);
        NumberHasNoColon(b);
        DecodeJoined(a, b);
      }
    }
  }

  /** Every successful decode yields ids between 1 and 2^63-1. */
  lemma DecodedIdsAreValid(value: string)
    requires DecodePrincipal(value).Some?
    ensures var p := DecodePrincipal(value).value;
            ValidId(p.userId) && (p.apiKeyId.Some? ==> ValidId(p.apiKeyId.value))
  {
    DecodedStrings(value, DecodePrincipal(value).value);
  }
}
