/** Authenticator assurance levels: how strongly a set of authentication methods vouches for a person. */
module Assurance {
  import opened Basics

  /** 0 to 3 for "aal0" to "aal3", which compare as their strings do. */
  type Level = n: nat | n <= 3

  const FIRST_FACTORS: set<CredentialsType> := {"link_recovery", "oidc", "v0.6_legacy_session", "password"}
  const SECOND_FACTORS: set<CredentialsType> := {"totp", "lookup_secret", "webauthn"}

  /** A first factor is worth level 1, a second one on top of it level 2, and a second one alone nothing. */
  ghost function LevelOf(methods: set<CredentialsType>): Level {
    if methods !! FIRST_FACTORS then 0 else if methods !! SECOND_FACTORS then 1 else 2
  }

  function ToSet(cts: seq<CredentialsType>): set<CredentialsType> {
    set c | c in cts
  }

  /** The level depends on the set of methods alone, not on their order or number. */
  method DetermineAAL(cts: seq<CredentialsType>) returns (aal: Level)
    ensures aal == LevelOf(ToSet(cts))
  {
    aal := 0;
    var firstFactor, secondFactor := false, false;
    for i := 0 to |cts|
      invariant firstFactor <==> exists j :: 0 <= j < i && cts[j] in FIRST_FACTORS
      invariant secondFactor <==> exists j :: 0 <= j < i && cts[j] in SECOND_FACTORS
    {
      match cts[i]
      case "link_recovery" => firstFactor := true;
      case "oidc" => firstFactor := true;
      case "v0.6_legacy_session" => firstFactor := true;
      case "password" => firstFactor := true;
      case "totp" => secondFactor := true;
      case "lookup_secret" => secondFactor := true;
      case "webauthn" => secondFactor := true;
      case _ =>
    }
    if firstFactor && secondFactor {
      aal := 2;
    } else if firstFactor {
      aal := 1;
    }
    assert forall c :: c in ToSet(cts) <==> exists j :: 0 <= j < |cts| && cts[j] == c;
  }

  /** More methods never make a lower level. */
  lemma LevelGrows(few: set<CredentialsType>, many: set<CredentialsType>)
    requires few <= many
    ensures LevelOf(few) <= LevelOf(many)
  {
    assert many !! FIRST_FACTORS ==> few !! FIRST_FACTORS;
    assert many !! SECOND_FACTORS ==> few !! SECOND_FACTORS;
  }

  /** The level of every single method, and of a second method on top of a first, by name. */
  lemma LevelsByName(first: CredentialsType, second: CredentialsType, other: CredentialsType)
    requires first == "link_recovery" || first == "oidc" || first == "v0.6_legacy_session" || first == "password"
    requires second == "totp" || second == "lookup_secret" || second == "webauthn"
    requires other !in {"link_recovery", "oidc", "v0.6_legacy_session", "password", "totp", "lookup_secret", "webauthn"}
    ensures LevelOf({}) == 0 && LevelOf({first}) == 1 && LevelOf({second}) == 0 && LevelOf({other}) == 0
    ensures LevelOf({first, second}) == 2 && LevelOf({first, other}) == 1 && LevelOf({second, other}) == 0
  {
    assert first in FIRST_FACTORS && first !in SECOND_FACTORS;
    assert second in SECOND_FACTORS && second !in FIRST_FACTORS;
  }
}
