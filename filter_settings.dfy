/**
 * The variant-calling filter settings and their defaulting for a given
 * variant caller. Negative values are the "not set" sentinel of most
 * thresholds; the defaulting fills those, overrides a few settings
 * outright, and fails on a caller it does not know.
 */
module FilterSettings {
  /** The variant callers; `Other` stands for any value of the enumeration
      that the defaulting does not handle. */
  datatype SupportedVariantCallers = None | Starling | Somatic | GATK | Other(code: int)

  /** The value of every setting at one moment. Single- and
      double-precision numbers are exact reals here. */
  datatype Values = Values(
    FilterOutSingleProbePoolVariants: bool,
    FilterOutSingleStrandVariants: bool,
    IndelRepeatFilterCutoff: int,
    MinQScore: int,
    MinimumCoverageDepthEmitCutoff: int,
    MinimumDepthCutoff: int,
    MinimumGQCutoff: int,
    MinimumGQXCutoff: real,
    MinimumMQCutoff: real,
    MinimumQDCutoff: real,
    MinimumQualCutoff: int,
    MinimumQualityEmitCutoff: int,
    MaximumQualityScore: int,
    OnlyCallInROI: bool,
    ReportPercentNoCalls: bool,
    OnlyUseProperPairs: bool,
    CallPhasedSNVs: bool,
    StrandBiasFilterCutoff: real,
    MaxSizePhasedSNV: int,
    MaxGapPhasedSNV: int,
    VariantFrequencyEmitCutoff: real,
    VariantFrequencyFilterCutoff: real,
    FilterOffTargetVariants: bool,
    FilterDPFReads: bool,
    DisableStrandBiasFilter: bool,
    DisableHPOLFilter: bool,
    DisableIndelMaxCoverageFilter: bool)

  /** The settings of a newly made object. */
  const InitialValues := Values(
    FilterOutSingleProbePoolVariants := false,
    FilterOutSingleStrandVariants := false,
    IndelRepeatFilterCutoff := -1,
    MinQScore := -1,
    MinimumCoverageDepthEmitCutoff := -1,
    MinimumDepthCutoff := -1,
    MinimumGQCutoff := -1,
    MinimumGQXCutoff := -1.0,
    MinimumMQCutoff := -1.0,
    MinimumQDCutoff := -1.0,
    MinimumQualCutoff := -1,
    MinimumQualityEmitCutoff := -1,
    MaximumQualityScore := 100,
    OnlyCallInROI := false,
    ReportPercentNoCalls := false,
    OnlyUseProperPairs := false,
    CallPhasedSNVs := true,
    StrandBiasFilterCutoff := 0.0,
    MaxSizePhasedSNV := 3,
    MaxGapPhasedSNV := 1,
    VariantFrequencyEmitCutoff := -1.0,
    VariantFrequencyFilterCutoff := -1.0,
    FilterOffTargetVariants := false,
    FilterDPFReads := true,
    DisableStrandBiasFilter := false,
    DisableHPOLFilter := false,
    DisableIndelMaxCoverageFilter := false)

  /** The settings after the defaulting, and whether it completed (false:
      it stopped on an unknown caller, with the settings changed so far). */
  datatype Applied = Applied(values: Values, ok: bool)

  /** A GQ cutoff, or the failure on an unknown caller. */
  datatype GqChoice = Chosen(gq: int) | UnknownCaller

  /** The GQ cutoff: the configured one when positive, else the caller's
      default. */
  function GqCutoff(caller: SupportedVariantCallers, configMinimumGQ: int): GqChoice
  {
    if configMinimumGQ > 0 then Chosen(configMinimumGQ)
    else
      match caller
      case None => Chosen(0)
      case Starling => Chosen(0)
      case Somatic => Chosen(30)
      case GATK => Chosen(0)
      case Other(_) => UnknownCaller
  }

  /** The indel repeat cutoff: the configured one unless it is negative. */
  function IndelRepeatCutoff(caller: SupportedVariantCallers, configIndelRepeat: int): int
  {
    if configIndelRepeat < 0 then (if caller == Somatic then 8 else 0) else configIndelRepeat
  }

  /** The variant frequency emit cutoff of each known caller. */
  function EmitCutoff(caller: SupportedVariantCallers): real
  {
    match caller
    case GATK => 0.0
    case Somatic => 0.01
    case _ => 0.1
  }

  /** The basecall quality cutoff of each caller. */
  function QScore(caller: SupportedVariantCallers): int
  {
    match caller
    case Starling => 17
    case Somatic => 20
    case _ => 0
  }

  /** Lines 56-59: a Somatic workflow switches the single-strand filter on. */
  function SingleStrandRule(x: bool, workflowCaller: SupportedVariantCallers): bool
  {
    if workflowCaller == Somatic then true else x
  }

  /** Lines 62-65: Starling sets the strand bias cutoff to 10. */
  function StarlingBiasRule(x: real, caller: SupportedVariantCallers): real
  {
    if caller == Starling then 10.0 else x
  }

  /** Lines 188-191: Somatic sets the strand bias cutoff to 0.5. */
  function SomaticBiasRule(x: real, caller: SupportedVariantCallers): real
  {
    if caller == Somatic then 0.5 else x
  }

  /** Both strand bias overrides, as they stand after a completed run. */
  function StrandBiasRule(x: real, caller: SupportedVariantCallers): real
  {
    if caller == Starling then 10.0 else if caller == Somatic then 0.5 else x
  }

  /** Lines 68-71: an unset quality emit cutoff becomes 20 for Somatic. */
  function QualityEmitRule(x: int, caller: SupportedVariantCallers): int
  {
    if x < 0 && caller == Somatic then 20 else x
  }

  /** Lines 113-126: the variant frequency filter cutoff of each known
      caller. */
  function FrequencyFilterRule(caller: SupportedVariantCallers): real
  {
    if caller == Somatic then 0.01 else 0.0
  }

  /** Lines 128-146: an unset variant frequency emit cutoff becomes the
      caller's. */
  function FrequencyEmitRule(x: real, caller: SupportedVariantCallers): real
  {
    if x < 0.0 then EmitCutoff(caller) else x
  }

  /** Lines 148-151: an unset coverage depth emit cutoff becomes 10 for
      Somatic. */
  function CoverageEmitRule(x: int, caller: SupportedVariantCallers): int
  {
    if x < 0 && caller == Somatic then 10 else x
  }

  /** Lines 153-164: an unset QD cutoff becomes 2 for GATK and 0 otherwise. */
  function QdRule(x: real, caller: SupportedVariantCallers): real
  {
    if x < 0.0 then (if caller == GATK then 2.0 else 0.0) else x
  }

  /** Lines 166-180: an unset GQX cutoff becomes 30 for GATK and Starling
      and 0 otherwise. */
  function GqxRule(x: real, caller: SupportedVariantCallers): real
  {
    if x < 0.0 then (if caller == GATK || caller == Starling then 30.0 else 0.0) else x
  }

  /** Lines 182-185: an unset MQ cutoff becomes 20 for GATK. */
  function MqRule(x: real, caller: SupportedVariantCallers): real
  {
    if x < 0.0 && caller == GATK then 20.0 else x
  }

  /** The whole defaulting as a table, one rule per setting. The rules of
      the steps after the failure point apply only to known callers; the
      GQ and indel repeat rules apply once a GQ cutoff is chosen. */
  function Defaulted(v: Values, workflowCaller: SupportedVariantCallers, caller: SupportedVariantCallers,
                     configMinimumGQ: int, configIndelRepeat: int): Applied
  {
    var gq := GqCutoff(caller, configMinimumGQ);
    var known := !caller.Other?;
    Applied(
      v.(FilterOutSingleStrandVariants := SingleStrandRule(v.FilterOutSingleStrandVariants, workflowCaller),
         StrandBiasFilterCutoff := StrandBiasRule(v.StrandBiasFilterCutoff, caller),
         MinimumQualityEmitCutoff := QualityEmitRule(v.MinimumQualityEmitCutoff, caller),
         MinimumGQCutoff := if gq.Chosen? then gq.gq else v.MinimumGQCutoff,
         IndelRepeatFilterCutoff :=
           if gq.Chosen? then IndelRepeatCutoff(caller, configIndelRepeat) else v.IndelRepeatFilterCutoff,
         VariantFrequencyFilterCutoff := if known then FrequencyFilterRule(caller) else v.VariantFrequencyFilterCutoff,
         VariantFrequencyEmitCutoff :=
           if known then FrequencyEmitRule(v.VariantFrequencyEmitCutoff, caller) else v.VariantFrequencyEmitCutoff,
         MinimumCoverageDepthEmitCutoff :=
           if known then CoverageEmitRule(v.MinimumCoverageDepthEmitCutoff, caller) else v.MinimumCoverageDepthEmitCutoff,
         MinimumQDCutoff := if known then QdRule(v.MinimumQDCutoff, caller) else v.MinimumQDCutoff,
         MinimumGQXCutoff := if known then GqxRule(v.MinimumGQXCutoff, caller) else v.MinimumGQXCutoff,
         MinimumMQCutoff := if known then MqRule(v.MinimumMQCutoff, caller) else v.MinimumMQCutoff,
         OnlyCallInROI := if known then false else v.OnlyCallInROI,
         MinQScore := if known then QScore(caller) else v.MinQScore),
      known)
  }

  class VariantCallingFilterSettings {
    var FilterOutSingleProbePoolVariants: bool
    var FilterOutSingleStrandVariants: bool
    var IndelRepeatFilterCutoff: int
    var MinQScore: int
    var MinimumCoverageDepthEmitCutoff: int
    var MinimumDepthCutoff: int
    var MinimumGQCutoff: int
    var MinimumGQXCutoff: real
    var MinimumMQCutoff: real
    var MinimumQDCutoff: real
    var MinimumQualCutoff: int
    var MinimumQualityEmitCutoff: int
    var MaximumQualityScore: int
    var OnlyCallInROI: bool
    var ReportPercentNoCalls: bool
    var OnlyUseProperPairs: bool
    var CallPhasedSNVs: bool
    var StrandBiasFilterCutoff: real
    var MaxSizePhasedSNV: int
    var MaxGapPhasedSNV: int
    var VariantFrequencyEmitCutoff: real
    var VariantFrequencyFilterCutoff: real
    var FilterOffTargetVariants: bool
    var FilterDPFReads: bool
    var DisableStrandBiasFilter: bool
    var DisableHPOLFilter: bool
    var DisableIndelMaxCoverageFilter: bool

    /** The current value of every field. */
    function Snapshot(): Values
      reads this
    {
      Values(FilterOutSingleProbePoolVariants, FilterOutSingleStrandVariants, IndelRepeatFilterCutoff, MinQScore,
             MinimumCoverageDepthEmitCutoff, MinimumDepthCutoff, MinimumGQCutoff, MinimumGQXCutoff, MinimumMQCutoff,
             MinimumQDCutoff, MinimumQualCutoff, MinimumQualityEmitCutoff, MaximumQualityScore, OnlyCallInROI,
             ReportPercentNoCalls, OnlyUseProperPairs, CallPhasedSNVs, StrandBiasFilterCutoff, MaxSizePhasedSNV,
             MaxGapPhasedSNV, VariantFrequencyEmitCutoff, VariantFrequencyFilterCutoff, FilterOffTargetVariants,
             FilterDPFReads, DisableStrandBiasFilter, DisableHPOLFilter, DisableIndelMaxCoverageFilter)
    }

    /** A new object with the field initialisers' values. */
    constructor ()
      ensures Snapshot() == InitialValues
    {
      FilterOutSingleProbePoolVariants := false;
      FilterOutSingleStrandVariants := false;
      IndelRepeatFilterCutoff := -1;
      MinQScore := -1;
      MinimumCoverageDepthEmitCutoff := -1;
      MinimumDepthCutoff := -1;
      MinimumGQCutoff := -1;
      MinimumGQXCutoff := -1.0;
      MinimumMQCutoff := -1.0;
      MinimumQDCutoff := -1.0;
      MinimumQualCutoff := -1;
      MinimumQualityEmitCutoff := -1;
      MaximumQualityScore := 100;
      OnlyCallInROI := false;
      ReportPercentNoCalls := false;
      OnlyUseProperPairs := false;
      CallPhasedSNVs := true;
      StrandBiasFilterCutoff := 0.0;
      MaxSizePhasedSNV := 3;
      MaxGapPhasedSNV := 1;
      VariantFrequencyEmitCutoff := -1.0;
      VariantFrequencyFilterCutoff := -1.0;
      FilterOffTargetVariants := false;
      FilterDPFReads := true;
      DisableStrandBiasFilter := false;
      DisableHPOLFilter := false;
      DisableIndelMaxCoverageFilter := false;
    }

    /** A new object with every field of `other`. */
    constructor Copy(other: VariantCallingFilterSettings)
      ensures Snapshot() == other.Snapshot()
    {
      FilterOutSingleProbePoolVariants := other.FilterOutSingleProbePoolVariants;
      FilterOutSingleStrandVariants := other.FilterOutSingleStrandVariants;
      IndelRepeatFilterCutoff := other.IndelRepeatFilterCutoff;
      MinQScore := other.MinQScore;
      MinimumCoverageDepthEmitCutoff := other.MinimumCoverageDepthEmitCutoff;
      MinimumDepthCutoff := other.MinimumDepthCutoff;
      MinimumGQCutoff := other.MinimumGQCutoff;
      MinimumGQXCutoff := other.MinimumGQXCutoff;
      MinimumMQCutoff := other.MinimumMQCutoff;
      MinimumQDCutoff := other.MinimumQDCutoff;
      MinimumQualCutoff := other.MinimumQualCutoff;
      MinimumQualityEmitCutoff := other.MinimumQualityEmitCutoff;
      MaximumQualityScore := other.MaximumQualityScore;
      OnlyCallInROI := other.OnlyCallInROI;
      ReportPercentNoCalls := other.ReportPercentNoCalls;
      OnlyUseProperPairs := other.OnlyUseProperPairs;
      CallPhasedSNVs := other.CallPhasedSNVs;
      StrandBiasFilterCutoff := other.StrandBiasFilterCutoff;
      MaxSizePhasedSNV := other.MaxSizePhasedSNV;
      MaxGapPhasedSNV := other.MaxGapPhasedSNV;
      VariantFrequencyEmitCutoff := other.VariantFrequencyEmitCutoff;
      VariantFrequencyFilterCutoff := other.VariantFrequencyFilterCutoff;
      FilterOffTargetVariants := other.FilterOffTargetVariants;
      FilterDPFReads := other.FilterDPFReads;
      DisableStrandBiasFilter := other.DisableStrandBiasFilter;
      DisableHPOLFilter := other.DisableHPOLFilter;
      DisableIndelMaxCoverageFilter := other.DisableIndelMaxCoverageFilter;
    }

    /** A field-by-field copy: a new object, equal in every field, that
        later changes to either do not reach the other. */
    method Clone() returns (c: VariantCallingFilterSettings)
      ensures fresh(c) && c.Snapshot() == Snapshot()
    {
      c := new VariantCallingFilterSettings.Copy(this);
    }

    /** Sets the default filters for the workflow's caller `workflowCaller`
        and the variant caller `variantCaller`, one statement per setting,
        each rule function being one conditional of the source. `ok` is
        false where the source throws on an unknown caller; the fields set
        before that point keep their new values. The frame leaves every
        other field as it was; TableFromFields turns the postconditions
        into the table Defaulted. */
    method SetDefaultVariantFilters(workflowCaller: SupportedVariantCallers, variantCaller: SupportedVariantCallers,
                                    configMinimumGQ: int, configIndelRepeat: int) returns (ok: bool)
      modifies this`FilterOutSingleStrandVariants, this`StrandBiasFilterCutoff, this`MinimumQualityEmitCutoff,
               this`MinimumGQCutoff, this`IndelRepeatFilterCutoff, this`VariantFrequencyFilterCutoff,
               this`VariantFrequencyEmitCutoff, this`MinimumCoverageDepthEmitCutoff, this`MinimumQDCutoff,
               this`MinimumGQXCutoff, this`MinimumMQCutoff, this`OnlyCallInROI, this`MinQScore
      ensures ok == !variantCaller.Other?
      ensures FilterOutSingleStrandVariants == SingleStrandRule(old(FilterOutSingleStrandVariants), workflowCaller)
      ensures StrandBiasFilterCutoff == StrandBiasRule(old(StrandBiasFilterCutoff), variantCaller)
      ensures MinimumQualityEmitCutoff == QualityEmitRule(old(MinimumQualityEmitCutoff), variantCaller)
      ensures GqCutoff(variantCaller, configMinimumGQ).Chosen? ==>
                MinimumGQCutoff == GqCutoff(variantCaller, configMinimumGQ).gq
                && IndelRepeatFilterCutoff == IndelRepeatCutoff(variantCaller, configIndelRepeat)
      ensures GqCutoff(variantCaller, configMinimumGQ).UnknownCaller? ==>
                MinimumGQCutoff == old(MinimumGQCutoff) && IndelRepeatFilterCutoff == old(IndelRepeatFilterCutoff)
      ensures ok ==> VariantFrequencyFilterCutoff == FrequencyFilterRule(variantCaller)
                     && VariantFrequencyEmitCutoff == FrequencyEmitRule(old(VariantFrequencyEmitCutoff), variantCaller)
                     && MinimumCoverageDepthEmitCutoff == CoverageEmitRule(old(MinimumCoverageDepthEmitCutoff), variantCaller)
                     && MinimumQDCutoff == QdRule(old(MinimumQDCutoff), variantCaller)
                     && MinimumGQXCutoff == GqxRule(old(MinimumGQXCutoff), variantCaller)
                     && MinimumMQCutoff == MqRule(old(MinimumMQCutoff), variantCaller)
                     && !OnlyCallInROI && MinQScore == QScore(variantCaller)
      ensures !ok ==> VariantFrequencyFilterCutoff == old(VariantFrequencyFilterCutoff)
                      && VariantFrequencyEmitCutoff == old(VariantFrequencyEmitCutoff)
                      && MinimumCoverageDepthEmitCutoff == old(MinimumCoverageDepthEmitCutoff)
                      && MinimumQDCutoff == old(MinimumQDCutoff) && MinimumGQXCutoff == old(MinimumGQXCutoff)
                      && MinimumMQCutoff == old(MinimumMQCutoff) && OnlyCallInROI == old(OnlyCallInROI)
                      && MinQScore == old(MinQScore)
    {
      FilterOutSingleStrandVariants := SingleStrandRule(FilterOutSingleStrandVariants, workflowCaller);
      StrandBiasFilterCutoff := StarlingBiasRule(StrandBiasFilterCutoff, variantCaller);
      MinimumQualityEmitCutoff := QualityEmitRule(MinimumQualityEmitCutoff, variantCaller);
      var gq := GqCutoff(variantCaller, configMinimumGQ);
      if gq.UnknownCaller? {
        return false;
      }
      MinimumGQCutoff := gq.gq;
      IndelRepeatFilterCutoff := IndelRepeatCutoff(variantCaller, configIndelRepeat);
      if variantCaller.Other? {
        return false;
      }
      VariantFrequencyFilterCutoff := FrequencyFilterRule(variantCaller);
      VariantFrequencyEmitCutoff := FrequencyEmitRule(VariantFrequencyEmitCutoff, variantCaller);
      MinimumCoverageDepthEmitCutoff := CoverageEmitRule(MinimumCoverageDepthEmitCutoff, variantCaller);
      MinimumQDCutoff := QdRule(MinimumQDCutoff, variantCaller);
      MinimumGQXCutoff := GqxRule(MinimumGQXCutoff, variantCaller);
      MinimumMQCutoff := MqRule(MinimumMQCutoff, variantCaller);
      StrandBiasFilterCutoff := SomaticBiasRule(StrandBiasFilterCutoff, variantCaller);
      OnlyCallInROI := false;
      MinQScore := QScore(variantCaller);
      return true;
    }
  }

  /** Settings `r` that follow every rule of the defaulting from `v`, as
      SetDefaultVariantFilters promises field by field, are the table's. */
  lemma TableFromFields(v: Values, workflowCaller: SupportedVariantCallers, caller: SupportedVariantCallers,
                        configMinimumGQ: int, configIndelRepeat: int, r: Values, ok: bool)
    requires ok == !caller.Other?
    requires r.FilterOutSingleStrandVariants == SingleStrandRule(v.FilterOutSingleStrandVariants, workflowCaller)
    requires r.StrandBiasFilterCutoff == StrandBiasRule(v.StrandBiasFilterCutoff, caller)
    requires r.MinimumQualityEmitCutoff == QualityEmitRule(v.MinimumQualityEmitCutoff, caller)
    requires GqCutoff(caller, configMinimumGQ).Chosen? ==>
               r.MinimumGQCutoff == GqCutoff(caller, configMinimumGQ).gq
               && r.IndelRepeatFilterCutoff == IndelRepeatCutoff(caller, configIndelRepeat)
    requires GqCutoff(caller, configMinimumGQ).UnknownCaller? ==>
               r.MinimumGQCutoff == v.MinimumGQCutoff && r.IndelRepeatFilterCutoff == v.IndelRepeatFilterCutoff
    requires ok ==> r.VariantFrequencyFilterCutoff == FrequencyFilterRule(caller)
                    && r.VariantFrequencyEmitCutoff == FrequencyEmitRule(v.VariantFrequencyEmitCutoff, caller)
                    && r.MinimumCoverageDepthEmitCutoff == CoverageEmitRule(v.MinimumCoverageDepthEmitCutoff, caller)
                    && r.MinimumQDCutoff == QdRule(v.MinimumQDCutoff, caller)
                    && r.MinimumGQXCutoff == GqxRule(v.MinimumGQXCutoff, caller)
                    && r.MinimumMQCutoff == MqRule(v.MinimumMQCutoff, caller)
                    && !r.OnlyCallInROI && r.MinQScore == QScore(caller)
    requires !ok ==> r.VariantFrequencyFilterCutoff == v.VariantFrequencyFilterCutoff
                     && r.VariantFrequencyEmitCutoff == v.VariantFrequencyEmitCutoff
                     && r.MinimumCoverageDepthEmitCutoff == v.MinimumCoverageDepthEmitCutoff
                     && r.MinimumQDCutoff == v.MinimumQDCutoff && r.MinimumGQXCutoff == v.MinimumGQXCutoff
                     && r.MinimumMQCutoff == v.MinimumMQCutoff && r.OnlyCallInROI == v.OnlyCallInROI
                     && r.MinQScore == v.MinQScore
    requires r.FilterOutSingleProbePoolVariants == v.FilterOutSingleProbePoolVariants
    requires r.MinimumDepthCutoff == v.MinimumDepthCutoff
    requires r.MinimumQualCutoff == v.MinimumQualCutoff
    requires r.MaximumQualityScore == v.MaximumQualityScore
    requires r.ReportPercentNoCalls == v.ReportPercentNoCalls
    requires r.OnlyUseProperPairs == v.OnlyUseProperPairs
    requires r.CallPhasedSNVs == v.CallPhasedSNVs
    requires r.MaxSizePhasedSNV == v.MaxSizePhasedSNV
    requires r.MaxGapPhasedSNV == v.MaxGapPhasedSNV
    requires r.FilterOffTargetVariants == v.FilterOffTargetVariants
    requires r.FilterDPFReads == v.FilterDPFReads
    requires r.DisableStrandBiasFilter == v.DisableStrandBiasFilter
    requires r.DisableHPOLFilter == v.DisableHPOLFilter
    requires r.DisableIndelMaxCoverageFilter == v.DisableIndelMaxCoverageFilter
    ensures Applied(r, ok) == Defaulted(v, workflowCaller, caller, configMinimumGQ, configIndelRepeat)
  {
  }

  /** The defaulting completes exactly for the four known callers. */
  lemma CompletesForKnownCallers(v: Values, workflowCaller: SupportedVariantCallers, caller: SupportedVariantCallers, gq: int, indel: int)
    ensures Defaulted(v, workflowCaller, caller, gq, indel).ok <==> !caller.Other?
  {
  }

  /** On an unknown caller, the only changes made before the failure are
      the single-strand flag and, with a positive configured GQ, the GQ and
      indel repeat cutoffs. */
  lemma UnknownCallerPartialState(v: Values, workflowCaller: SupportedVariantCallers, caller: SupportedVariantCallers, gq: int, indel: int,
                                  r: Values)
    requires caller.Other? && r == Defaulted(v, workflowCaller, caller, gq, indel).values
    ensures gq > 0 ==> r == v.(FilterOutSingleStrandVariants := v.FilterOutSingleStrandVariants || workflowCaller == Somatic,
                              MinimumGQCutoff := gq, IndelRepeatFilterCutoff := if indel < 0 then 0 else indel)
    ensures gq <= 0 ==> r == v.(FilterOutSingleStrandVariants := v.FilterOutSingleStrandVariants || workflowCaller == Somatic)
  {
  }

  /** A positive configured GQ is used as is; otherwise the cutoff is 30
      for Somatic and 0 for the other known callers. */
  lemma GqCutoffRule(v: Values, workflowCaller: SupportedVariantCallers, caller: SupportedVariantCallers, gq: int, indel: int)
    requires !caller.Other? || gq > 0
    ensures Defaulted(v, workflowCaller, caller, gq, indel).values.MinimumGQCutoff ==
              if gq > 0 then gq else if caller == Somatic then 30 else 0
  {
  }

  /** A non-negative configured indel repeat cutoff is used as is;
      otherwise it is 8 for Somatic and 0 for the others. */
  lemma IndelRepeatRule(v: Values, workflowCaller: SupportedVariantCallers, caller: SupportedVariantCallers, gq: int, indel: int)
    requires !caller.Other? || gq > 0
    ensures Defaulted(v, workflowCaller, caller, gq, indel).values.IndelRepeatFilterCutoff ==
              if indel >= 0 then indel else if caller == Somatic then 8 else 0
  {
  }

  /** The sentinel-guarded settings: a non-negative value survives, and a
      completed run leaves the always-defaulted ones non-negative. */
  lemma SentinelGuarded(v: Values, workflowCaller: SupportedVariantCallers, caller: SupportedVariantCallers, gq: int, indel: int,
                        r: Applied)
    requires r == Defaulted(v, workflowCaller, caller, gq, indel)
    ensures v.MinimumQualityEmitCutoff >= 0 ==> r.values.MinimumQualityEmitCutoff == v.MinimumQualityEmitCutoff
    ensures v.VariantFrequencyEmitCutoff >= 0.0 ==> r.values.VariantFrequencyEmitCutoff == v.VariantFrequencyEmitCutoff
    ensures v.MinimumCoverageDepthEmitCutoff >= 0 ==> r.values.MinimumCoverageDepthEmitCutoff == v.MinimumCoverageDepthEmitCutoff
    ensures v.MinimumQDCutoff >= 0.0 ==> r.values.MinimumQDCutoff == v.MinimumQDCutoff
    ensures v.MinimumGQXCutoff >= 0.0 ==> r.values.MinimumGQXCutoff == v.MinimumGQXCutoff
    ensures v.MinimumMQCutoff >= 0.0 ==> r.values.MinimumMQCutoff == v.MinimumMQCutoff
    ensures r.ok ==> r.values.VariantFrequencyEmitCutoff >= 0.0 && r.values.MinimumQDCutoff >= 0.0 && r.values.MinimumGQXCutoff >= 0.0
  {
  }

  /** The settings a completed run sets whatever their previous value. */
  lemma Overrides(v: Values, workflowCaller: SupportedVariantCallers, caller: SupportedVariantCallers, gq: int, indel: int,
                  r: Values)
    requires !caller.Other? && r == Defaulted(v, workflowCaller, caller, gq, indel).values
    ensures r.VariantFrequencyFilterCutoff == (if caller == Somatic then 0.01 else 0.0)
    ensures r.MinQScore == (if caller == Starling then 17 else if caller == Somatic then 20 else 0)
    ensures !r.OnlyCallInROI
  {
  }

  /** Strand bias is 10 for Starling and 0.5 for Somatic, and untouched
      otherwise; the single-strand filter is
      switched on only for a Somatic workflow caller. */
  lemma StrandSettings(v: Values, workflowCaller: SupportedVariantCallers, caller: SupportedVariantCallers, gq: int, indel: int,
                       r: Values)
    requires r == Defaulted(v, workflowCaller, caller, gq, indel).values
    ensures r.StrandBiasFilterCutoff ==
              (if caller == Starling then 10.0 else if caller == Somatic then 0.5 else v.StrandBiasFilterCutoff)
    ensures r.FilterOutSingleStrandVariants == (v.FilterOutSingleStrandVariants || workflowCaller == Somatic)
  {
  }

  /** The settings the defaulting never changes. */
  lemma UntouchedFields(v: Values, workflowCaller: SupportedVariantCallers, caller: SupportedVariantCallers, gq: int, indel: int,
                        r: Values)
    requires r == Defaulted(v, workflowCaller, caller, gq, indel).values
    ensures r.FilterOutSingleProbePoolVariants == v.FilterOutSingleProbePoolVariants
    ensures r.MinimumDepthCutoff == v.MinimumDepthCutoff
    ensures r.MinimumQualCutoff == v.MinimumQualCutoff
    ensures r.MaximumQualityScore == v.MaximumQualityScore
    ensures r.ReportPercentNoCalls == v.ReportPercentNoCalls
    ensures r.OnlyUseProperPairs == v.OnlyUseProperPairs
    ensures r.CallPhasedSNVs == v.CallPhasedSNVs
    ensures r.MaxSizePhasedSNV == v.MaxSizePhasedSNV
    ensures r.MaxGapPhasedSNV == v.MaxGapPhasedSNV
    ensures r.FilterOffTargetVariants == v.FilterOffTargetVariants
    ensures r.FilterDPFReads == v.FilterDPFReads
    ensures r.DisableStrandBiasFilter == v.DisableStrandBiasFilter
    ensures r.DisableHPOLFilter == v.DisableHPOLFilter
    ensures r.DisableIndelMaxCoverageFilter == v.DisableIndelMaxCoverageFilter
  {
  }

  /** Defaulting twice with the same arguments is defaulting once. */
  lemma Idempotent(v: Values, workflowCaller: SupportedVariantCallers, caller: SupportedVariantCallers, gq: int, indel: int)
    ensures Defaulted(Defaulted(v, workflowCaller, caller, gq, indel).values, workflowCaller, caller, gq, indel) ==
            Defaulted(v, workflowCaller, caller, gq, indel)
  {
    var once := Defaulted(v, workflowCaller, caller, gq, indel).values;
    var twice := Defaulted(once, workflowCaller, caller, gq, indel).values;
    assert twice.FilterOutSingleStrandVariants == once.FilterOutSingleStrandVariants;
    assert twice.StrandBiasFilterCutoff == once.StrandBiasFilterCutoff;
    assert twice.MinimumQualityEmitCutoff == once.MinimumQualityEmitCutoff;
    assert twice.MinimumGQCutoff == once.MinimumGQCutoff;
    assert twice.IndelRepeatFilterCutoff == once.IndelRepeatFilterCutoff;
    assert twice.VariantFrequencyFilterCutoff == once.VariantFrequencyFilterCutoff;
    assert twice.VariantFrequencyEmitCutoff == once.VariantFrequencyEmitCutoff;
    assert twice.MinimumCoverageDepthEmitCutoff == once.MinimumCoverageDepthEmitCutoff;
    assert twice.MinimumQDCutoff == once.MinimumQDCutoff;
    assert twice.MinimumGQXCutoff == once.MinimumGQXCutoff;
    assert twice.MinimumMQCutoff == once.MinimumMQCutoff;
    assert twice.OnlyCallInROI == once.OnlyCallInROI;
    assert twice.MinQScore == once.MinQScore;
  }

  /** A new settings object defaulted for Starling with nothing
      configured. */
  lemma FreshStarling()
    ensures Defaulted(InitialValues, None, Starling, 0, -1) ==
            Applied(InitialValues.(StrandBiasFilterCutoff := 10.0, MinimumGQCutoff := 0, IndelRepeatFilterCutoff := 0,
                                   VariantFrequencyFilterCutoff := 0.0, VariantFrequencyEmitCutoff := 0.1,
                                   MinimumQDCutoff := 0.0, MinimumGQXCutoff := 30.0, MinQScore := 17), true)
  {
  }
}
