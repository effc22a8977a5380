/** Model tiers (admin-vanilla/temp-cors-handler/shared_types.py): the valid
    tier names, the legacy aliases, the tier -> provider model and tier ->
    credit tables, and the normalisation every caller applies. */
module Tiers {

  import opened Wrappers

  const ValidModelTiers: seq<string> := ["fast", "standard", "pro", "veo3_fast", "veo3_pro"]

  /** Names accepted for backward compatibility, and what they now mean. */
  const LegacyTierMapping: map<string, string> := map["balanced" := "standard", "premium" := "pro"]

  const DefaultModelTier: string := "fast"

  /** Provider model per tier, without the `fal-ai/` prefix. */
  const ModelTierToFalModel: map<string, string> :=
    map["fast" := "ltx-video",
        "standard" := "ltx-video-13b-distilled",
        "pro" := "wan-i2v",
        "veo3_fast" := "veo3-fast",
        "veo3_pro" := "veo3-pro"]

  /** Credits one job costs, per tier. */
  const ModelTierCredits: map<string, int> :=
    map["fast" := 1, "standard" := 2, "pro" := 3, "veo3_fast" := 4, "veo3_pro" := 5]

  predicate IsValidModelTier(tier: string) {
    tier in ValidModelTiers || tier in LegacyTierMapping
  }

  /** The accepted names are exactly the five tiers and the two aliases. */
  lemma IsValidModelTierExactly(tier: string)
    ensures IsValidModelTier(tier) <==>
            tier in {"fast", "standard", "pro", "veo3_fast", "veo3_pro", "balanced", "premium"}
  {
  }

  /** A missing tier becomes the default, an alias its new name, a valid tier
      itself, and any other string the default: no input is an error. */
  function ValidateAndDefaultTier(tier: Option<string>): (r: string)
    ensures r in ValidModelTiers
    ensures tier.None? ==> r == DefaultModelTier
    ensures tier.Some? && tier.value in LegacyTierMapping ==> r == LegacyTierMapping[tier.value]
    ensures tier.Some? && tier.value in ValidModelTiers ==> r == tier.value
    ensures tier.Some? && !IsValidModelTier(tier.value) ==> r == DefaultModelTier
  {
    match tier
    case None => DefaultModelTier
    case Some(t) =>
      if t in LegacyTierMapping then LegacyTierMapping[t]
      else if IsValidModelTier(t) then t
      else DefaultModelTier
  }

  /** Normalising an already-normalised tier changes nothing. */
  lemma ValidateAndDefaultTierIdempotent(tier: Option<string>)
    ensures ValidateAndDefaultTier(Some(ValidateAndDefaultTier(tier))) == ValidateAndDefaultTier(tier)
  {
  }

  /** Both tables are keyed by exactly the valid tiers, so every normalised
      tier has a model and a price, and every price is positive. */
  lemma TablesCoverValidTiers()
    ensures ModelTierToFalModel.Keys == set t | t in ValidModelTiers
    ensures ModelTierCredits.Keys == set t | t in ValidModelTiers
    ensures forall t :: t in ModelTierCredits ==> ModelTierCredits[t] > 0
    ensures forall t :: t in LegacyTierMapping ==> LegacyTierMapping[t] in ValidModelTiers
  {
  }
}
