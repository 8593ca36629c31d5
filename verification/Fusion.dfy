/** One plate from a native camera reading and a local reading: app/core/fusion.py.
    Confidences are reals; the wording of the reason text is not modelled. */
module Fusion {
  import opened PlateText
  import opened PlateSimilarity

  datatype Mode = NativeMode | LocalMode | HybridMode

  datatype Method =
    | NativeOnly
    | LocalOnly
    | NativeSelected
    | LocalSelected
    | Agreed
    | ReviewRequired
    | OperatorCorrected

  /** Site settings as stored; a zero entry stands for the default. */
  datatype Settings = Settings(
    fusionSimilarity: real,
    hybridLocalMin: real,
    hybridNativeMin: real,
    hybridLocalMargin: real,
    hybridReviewMin: real,
    minAutoAccept: real,
    strictSingleLocal: real)

  const DEFAULT_FUSION := Settings(0.7, 0.85, 0.80, 0.15, 0.90, 0.75, 0.92)

  function OrDefault(stored: real, default: real): real { if stored == 0.0 then default else stored }

  function MinAuto(cfg: Settings): real { OrDefault(cfg.minAutoAccept, 0.75) }

  function StrictLocal(cfg: Settings): real { OrDefault(cfg.strictSingleLocal, 0.92) }

  datatype Readings = Readings(
    native: string,
    nativeConfidence: real,
    local: string,
    localConfidence: real,
    localConsensus: bool)

  datatype Decision = Decision(
    plate: string,
    confidence: real,
    how: Method,
    needsReview: bool,
    native: string,
    local: string,
    nativeConfidence: real,
    localConfidence: real,
    disagreed: bool)

  function Max(a: real, b: real): real { if a >= b then a else b }

  /** The closing checks every branch goes through; r holds normalised plates. */
  function Finish(cfg: Settings, mode: Mode, r: Readings, plate: string, confidence: real, how: Method,
                  needsReview: bool): Decision
  {
    var disagreed := r.native != [] && r.local != [] && r.native != r.local;
    var review :=
      || needsReview
      || (disagreed && mode == HybridMode)
      || (plate != [] && confidence < MinAuto(cfg))
      || (how in {LocalOnly, LocalSelected} && r.native == [] &&
          confidence < StrictLocal(cfg) && !r.localConsensus)
      || plate == [];
    Decision(plate, confidence, how, review, r.native, r.local, r.nativeConfidence, r.localConfidence, disagreed)
  }

  /** What the branches see: normalised plates, and no native reading at all in a local mode. */
  function Seen(mode: Mode, raw: Readings): Readings
  {
    if mode == LocalMode then Readings([], 0.0, Normalize(raw.local), raw.localConfidence, raw.localConsensus)
    else raw.(native := Normalize(raw.native), local := Normalize(raw.local))
  }

  function ResolveReadings(cfg: Settings, mode: Mode, operatorPlate: string, raw: Readings): Decision
  {
    var r := Seen(mode, raw);
    var operator := Normalize(operatorPlate);
    var n, l := r.nativeConfidence, r.localConfidence;
    if operator != [] then
      Finish(cfg, mode, r, operator, Max(Max(n, l), 1.0), OperatorCorrected, false)
    else if mode == NativeMode then
      if r.native != [] then
        Finish(cfg, mode, r, r.native, n, if r.local == [] then NativeOnly else NativeSelected, false)
      else if r.local != [] then Finish(cfg, mode, r, r.local, l, LocalOnly, true)
      else Finish(cfg, mode, r, [], 0.0, NativeOnly, true)
    else if mode == LocalMode then
      if r.local != [] then
        Finish(cfg, mode, r, r.local, l, if r.native == [] then LocalOnly else LocalSelected, false)
      else Finish(cfg, mode, r, [], 0.0, LocalOnly, true)
    else if r.native != [] && r.local == [] then Finish(cfg, mode, r, r.native, n, NativeOnly, false)
    else if r.local != [] && r.native == [] then Finish(cfg, mode, r, r.local, l, LocalOnly, false)
    else if r.native == [] && r.local == [] then Finish(cfg, mode, r, [], 0.0, NativeOnly, true)
    else if r.native == r.local then Finish(cfg, mode, r, r.native, Max(n, l), Agreed, false)
    else Disagreement(cfg, mode, r)
  }

  /** Both providers read, and they read different plates. */
  function Disagreement(cfg: Settings, mode: Mode, r: Readings): Decision
  {
    var n, l := r.nativeConfidence, r.localConfidence;
    var similar := Similarity(r.native, r.local) >= OrDefault(cfg.fusionSimilarity, 0.7);
    var reviewMin := OrDefault(cfg.hybridReviewMin, 0.90);
    if n >= reviewMin && l >= reviewMin then
      if n >= l then Finish(cfg, mode, r, r.native, n, ReviewRequired, true)
      else Finish(cfg, mode, r, r.local, l, ReviewRequired, true)
    else if l >= OrDefault(cfg.hybridLocalMin, 0.85) && l - n >= OrDefault(cfg.hybridLocalMargin, 0.15) then
      Finish(cfg, mode, r, r.local, l, LocalSelected, !similar)
    else if n >= OrDefault(cfg.hybridNativeMin, 0.80) && n >= l then
      Finish(cfg, mode, r, r.native, n, NativeSelected, !similar)
    else if l >= n then Finish(cfg, mode, r, r.local, l, LocalSelected, true)
    else Finish(cfg, mode, r, r.native, n, NativeSelected, true)
  }

  // ----- When a reading is accepted -----

  /** The readings a HYBRID decision may act on without a person: they agree, or only one provider
      read, and the confidence suffices; a lone local read also needs the strict threshold or the
      agreement of several frames. */
  predicate HybridAcceptable(cfg: Settings, r: Readings)
  {
    var n, l := r.nativeConfidence, r.localConfidence;
    if r.native != [] && r.local != [] then r.native == r.local && Max(n, l) >= MinAuto(cfg)
    else if r.native != [] then n >= MinAuto(cfg)
    else r.local != [] && l >= MinAuto(cfg) && (l >= StrictLocal(cfg) || r.localConsensus)
  }

  /** A HYBRID decision is accepted exactly on acceptable readings, and then its plate is the
      normalised plate of every provider that read one, with the best confidence among them. */
  lemma HybridAcceptance(cfg: Settings, raw: Readings)
    ensures var d := ResolveReadings(cfg, HybridMode, [], raw);
            var r := Seen(HybridMode, raw);
            && (!d.needsReview <==> HybridAcceptable(cfg, r))
            && (!d.needsReview ==>
                  && d.plate != [] && d.confidence >= MinAuto(cfg)
                  && (r.native != [] ==> d.plate == r.native && d.confidence >= r.nativeConfidence)
                  && (r.local != [] ==> d.plate == r.local && d.confidence >= r.localConfidence)
                  && (r.native == [] ==> d.confidence >= StrictLocal(cfg) || r.localConsensus))
  {
  }

  /** The two providers read different plates. */
  predicate ProvidersDisagree(raw: Readings)
  {
    Normalize(raw.native) != [] && Normalize(raw.local) != [] && Normalize(raw.native) != Normalize(raw.local)
  }

  /** What a HYBRID decision shows when the providers do not disagree, held or accepted: the plate that was read, with
      the best confidence it was read with, and by whom. */
  lemma ReadingIsShown(cfg: Settings, raw: Readings)
    requires !ProvidersDisagree(raw)
    ensures var d := ResolveReadings(cfg, HybridMode, [], raw);
            var native, local := Normalize(raw.native), Normalize(raw.local);
            && !d.disagreed && d.native == native && d.local == local
            && (native != [] && local == [] ==>
                  d.plate == native && d.confidence == raw.nativeConfidence && d.how == NativeOnly)
            && (native == [] && local != [] ==>
                  d.plate == local && d.confidence == raw.localConfidence && d.how == LocalOnly)
            && (native != [] && local != [] ==>
                  d.plate == native == local && d.how == Agreed
                  && d.confidence == (if raw.nativeConfidence >= raw.localConfidence
                                      then raw.nativeConfidence else raw.localConfidence))
            && (native == [] && local == [] ==> d.plate == [] && d.confidence == 0.0 && d.needsReview)
  {
  }

  /** An operator's plate is accepted in HYBRID mode exactly when the two providers did not disagree
      (and full confidence passes the site minimum): a correction of a disagreement is held again. */
  lemma OperatorAcceptance(cfg: Settings, operatorPlate: string, raw: Readings)
    requires Normalize(operatorPlate) != []
    ensures var d := ResolveReadings(cfg, HybridMode, operatorPlate, raw);
            && d.plate == Normalize(operatorPlate) && d.how == OperatorCorrected
            && d.confidence == Max(Max(raw.nativeConfidence, raw.localConfidence), 1.0)
            && (!d.needsReview <==>
                  !ProvidersDisagree(raw) && Max(Max(raw.nativeConfidence, raw.localConfidence), 1.0) >= MinAuto(cfg))
  {
  }

  lemma OperatorCorrectionOfDisagreementIsHeld(raw: Readings)
    requires ProvidersDisagree(raw)
    ensures forall operatorPlate :: ResolveReadings(DEFAULT_FUSION, HybridMode, operatorPlate, raw).needsReview
  {
  }

  /** The single-provider modes: native mode trusts the camera whatever the local engine says and
      never accepts a local read; local mode ignores the camera altogether. */
  lemma SingleProviderAcceptance(cfg: Settings, raw: Readings)
    ensures !ResolveReadings(cfg, NativeMode, [], raw).needsReview <==>
            Normalize(raw.native) != [] && raw.nativeConfidence >= MinAuto(cfg)
    ensures !ResolveReadings(cfg, LocalMode, [], raw).needsReview <==>
            && Normalize(raw.local) != [] && raw.localConfidence >= MinAuto(cfg)
            && (raw.localConfidence >= StrictLocal(cfg) || raw.localConsensus)
    ensures forall native, confidence ::
              ResolveReadings(cfg, LocalMode, [], raw) ==
              ResolveReadings(cfg, LocalMode, [], raw.(native := native, nativeConfidence := confidence))
  {
  }

  /** What they show: native mode the camera's plate, or failing that the local one, held; local mode the local one. */
  lemma SingleProviderShows(cfg: Settings, raw: Readings)
    ensures var d := ResolveReadings(cfg, NativeMode, [], raw);
            var native, local := Normalize(raw.native), Normalize(raw.local);
            && (native != [] ==> d.plate == native && d.confidence == raw.nativeConfidence
                                 && d.how == if local == [] then NativeOnly else NativeSelected)
            && (native == [] && local != [] ==>
                  d.plate == local && d.confidence == raw.localConfidence && d.needsReview && d.how == LocalOnly)
            && (native == [] && local == [] ==> d.plate == [] && d.confidence == 0.0 && d.needsReview)
    ensures var d, local := ResolveReadings(cfg, LocalMode, [], raw), Normalize(raw.local);
            && d.plate == local && d.confidence == (if local != [] then raw.localConfidence else 0.0)
            && d.how == LocalOnly
            && !d.disagreed && d.native == []
  {
  }

  /** Raising confidences never turns an accepted HYBRID reading into a held one, nor changes its plate. */
  lemma HybridMonotone(cfg: Settings, low: Readings, high: Readings)
    requires low.native == high.native && low.local == high.local && low.localConsensus == high.localConsensus
    requires low.nativeConfidence <= high.nativeConfidence && low.localConfidence <= high.localConfidence
    requires !ResolveReadings(cfg, HybridMode, [], low).needsReview
    ensures !ResolveReadings(cfg, HybridMode, [], high).needsReview
    ensures ResolveReadings(cfg, HybridMode, [], high).plate == ResolveReadings(cfg, HybridMode, [], low).plate
  {
    HybridAcceptance(cfg, low);
    HybridAcceptance(cfg, high);
  }

  /** A negative margin lets a local reading outweigh a more confident native one. */
  predicate MarginFavoursLocal(cfg: Settings, n: real, l: real)
  {
    && (n < OrDefault(cfg.hybridReviewMin, 0.90) || l < OrDefault(cfg.hybridReviewMin, 0.90))
    && l >= OrDefault(cfg.hybridLocalMin, 0.85) && l - n >= OrDefault(cfg.hybridLocalMargin, 0.15)
  }

  /** A disagreement is always held. The operator is shown the more confident reading, unless a negative margin favours
      a weaker local one; on a tie the one the thresholds name. The method says whose it is, or that both providers
      were sure. */
  lemma DisagreementShowsTheMoreConfident(cfg: Settings, raw: Readings)
    requires ProvidersDisagree(raw)
    ensures var d := ResolveReadings(cfg, HybridMode, [], raw);
            var native, local, n, l :=
              Normalize(raw.native), Normalize(raw.local), raw.nativeConfidence, raw.localConfidence;
            && d.needsReview && d.disagreed && d.native == native && d.local == local
            && (l > n ==> d.plate == local)
            && (n > l ==> d.plate == if MarginFavoursLocal(cfg, n, l) then local else native)
            && (n == l ==>
                  d.plate == if !MarginFavoursLocal(cfg, n, l) && (n >= OrDefault(cfg.hybridReviewMin, 0.90)
                                || n >= OrDefault(cfg.hybridNativeMin, 0.80)) then native else local)
            && d.confidence == (if d.plate == native then n else l)
            && (OrDefault(cfg.hybridLocalMargin, 0.15) >= 0.0 ==> d.confidence == Max(n, l))
            && (d.how == ReviewRequired <==>
                  n >= OrDefault(cfg.hybridReviewMin, 0.90) && l >= OrDefault(cfg.hybridReviewMin, 0.90))
            && (d.how != ReviewRequired ==> d.how == if d.plate == native then NativeSelected else LocalSelected)
  {
  }
}
