/** The resolver behind the `ev` and `evp` parser functions, as values: the service
    registry, the width bounds and their one-time clamp, sanitizing the width,
    deriving the height, checking the id, choosing one of the four markup shapes, and
    the first-failure-wins decision chain that ties them together. */
module Resolver {
  import opened Wrappers
  import opened Php
  import opened HostServices
  import opened Markup

  /** One entry of `$wgEmbedVideoServiceList`. `defaultWidth`, `defaultRatio` and
      `idPattern` may be configured but are never consulted. */
  datatype Entry = Entry(
    url: string,
    extern: Option<string>,
    defaultWidth: Option<int>,
    defaultRatio: Option<real>,
    idPattern: Option<string>)

  /** The configuration a call reads: the host's services, the service registry and
      `$wgScriptPath`. */
  datatype Site = Site(host: Host, registry: map<string, Entry>, scriptPath: string)

  /** A configured width bound, `$wgEmbedVideoMinWidth` or `$wgEmbedVideoMaxWidth`,
      before the clamp: a number, or anything `is_numeric` rejects. */
  datatype Setting = Number(value: int) | NotANumber

  /** The width bounds once clamped. */
  datatype Bounds = Bounds(min: int, max: int)

  /** A sanitized width: the text interpolated into the markup and the number it
      stands for. */
  datatype Dim = Dim(text: string, value: int)

  /** The four failure kinds, with what their messages mention. */
  datatype Failure =
    | MissingParams
    | UnknownService(service: string)
    | IllegalWidth(width: string)
    | BadId(service: string, id: string)

  /** What a call decides: a failure, or embed markup, together with whether it came
      from the service's own extern clause (the path that disables the parser cache). */
  datatype Decision = Fail(failure: Failure) | Embed(markup: string, viaExtern: bool)

  /** What the parser function hands back to the host: a plain string (an error box)
      or final HTML that the host must not parse again. */
  datatype Outcome = Error(text: string) | Html(text: string)

  const MinWidthFloor: int := 100
  const MaxWidthCeiling: int := 1024
  const DefaultWidth: nat := 425

  /** The new `$wgEmbedVideoMinWidth` after `VerifyWidthMinAndMax`: a numeric setting
      of at least 100 is kept, anything else becomes 100. */
  function ClampMin(s: Setting): (r: int)
    ensures r >= MinWidthFloor
    ensures s.Number? && s.value >= MinWidthFloor ==> r == s.value
    ensures r == MinWidthFloor || s == Number(r)
  {
    if s.NotANumber? || s.value < MinWidthFloor then MinWidthFloor else s.value
  }

  /** The new `$wgEmbedVideoMaxWidth`: a numeric setting of at most 1024 is kept,
      anything else becomes 1024. */
  function ClampMax(s: Setting): (r: int)
    ensures r <= MaxWidthCeiling
    ensures s.Number? && s.value <= MaxWidthCeiling ==> r == s.value
    ensures r == MaxWidthCeiling || s == Number(r)
  {
    if s.NotANumber? || s.value > MaxWidthCeiling then MaxWidthCeiling else s.value
  }

  /** The clamp is idempotent: clamping clamped bounds changes nothing. */
  lemma ClampIdempotent(min: Setting, max: Setting)
    ensures ClampMin(Number(ClampMin(min))) == ClampMin(min)
    ensures ClampMax(Number(ClampMax(max))) == ClampMax(max)
  {
  }

  /** Bounds that the clamp has already been applied to. */
  predicate Clamped(b: Bounds) {
    b.min >= MinWidthFloor && b.max <= MaxWidthCeiling
  }

  /** The clamp is asymmetric: a small maximum or a large minimum is kept, so the
      clamped bounds may admit no width at all. */
  lemma ClampMayEmptyTheRange()
    ensures var b := Bounds(ClampMin(Number(600)), ClampMax(Number(300)));
      Clamped(b) && b.max < b.min
  {
  }

  /** When the clamp leaves the maximum below the minimum, no explicit width is
      accepted; an absent width still is. */
  lemma EmptyRangeRejectsExplicitWidths(b: Bounds, width: string)
    requires b.max < b.min
    ensures CheckWidth(Some(width), b).None?
    ensures CheckWidth(None, b).Some?
  {
  }

  /** `getServiceEntry`: exact, case-sensitive lookup; a missing key is no entry. */
  function GetServiceEntry(registry: map<string, Entry>, service: string): (r: Option<Entry>)
    ensures r.Some? <==> service in registry
    ensures r.Some? ==> r.value == registry[service]
  {
    if service in registry then Some(registry[service]) else None
  }

  /** `sanitizeWidth` as a value: `None` when it returns false, otherwise the width
      written back through the reference. An absent width becomes 425 without any
      bounds check; a present one must be numeric and within the bounds, and is
      then left exactly as written. */
  function CheckWidth(width: Option<string>, b: Bounds): (r: Option<Dim>)
    ensures width.None? ==> r == Some(Dim(NatToString(DefaultWidth), DefaultWidth))
    ensures width.Some? ==>
      (r.Some? <==> IntegerValue(width.value).Some? &&
                    b.min <= IntegerValue(width.value).value <= b.max)
    ensures width.Some? && r.Some? ==>
      r.value == Dim(width.value, IntegerValue(width.value).value)
    ensures r.Some? ==> IntegerValue(r.value.text) == Some(r.value.value)
  {
    if width.None? then
      IntegerValueOfIntToString(DefaultWidth);
      Some(Dim(NatToString(DefaultWidth), DefaultWidth))
    else
      match IntegerValue(width.value)
      case None => None
      case Some(w) => if b.min <= w && w <= b.max then Some(Dim(width.value, w)) else None
  }

  /** `getHeight`: the width divided by the default ratio 425/350 and rounded.
      The ratio an entry configures is ignored, as the source reads it from an
      undefined variable. */
  function GetHeight(w: Dim): (h: int)
    ensures -17 < 34 * h - 28 * w.value < 17
  {
    RoundedHeight(w.value)
  }

  /** The height as it is interpolated into the markup. */
  function HeightText(w: Dim): string {
    IntToString(GetHeight(w))
  }

  /** Widths within clamped bounds have heights between 82 and 843. */
  lemma HeightWithinClampedBounds(w: Dim, b: Bounds)
    requires Clamped(b) && b.min <= w.value <= b.max
    ensures 82 <= GetHeight(w) <= 843
  {
    RoundedHeightMonotonic(MinWidthFloor, w.value);
    RoundedHeightMonotonic(w.value, MaxWidthCeiling);
  }

  /** The default width 425 gives the height 350, printed as "425" and "350". */
  lemma DefaultDimensions()
    ensures NatToString(DefaultWidth) == "425"
    ensures GetHeight(Dim("425", 425)) == 350 && HeightText(Dim("425", 425)) == "350"
  {
    assert NatToString(4) == "4";
    assert NatToString(42) == "42";
    assert NatToString(35) == "35";
  }

  /** `verifyID`: the escaped id is not empty. The commented-out pattern check is
      not applied. */
  function VerifyId(h: Host, id: string): (ok: bool)
    ensures EscapeKeepsEmptiness(h) ==> (ok <==> id != [])
  {
    h.escape(id) != []
  }

  /** The clause a call that passed every check embeds when no alignment is given:
      the service's extern clause filled with the script path, id, width and height,
      or else the normal clause around its URL template filled with id, width and
      height. */
  function UnalignedClause(site: Site, entry: Entry, id: string, w: Dim): string {
    var height := HeightText(w);
    match entry.extern
    case Some(template) => site.host.replaceArgs(template, [site.scriptPath, id, w.text, height])
    case None => NormalClause(site.host.replaceArgs(entry.url, [id, w.text, height]), w.text, height)
  }

  /** The markup for a call that passed every check: one of four shapes, chosen by
      whether the entry has an extern clause and whether an alignment was given.
      Whichever the path, an aligned call embeds the unaligned clause inside the
      captioned thumbnail container. */
  function EmbedMarkup(site: Site, entry: Entry, id: string, w: Dim, align: Option<string>, desc: Option<string>): (r: string)
    ensures align.None? ==> r == UnalignedClause(site, entry, id, w)
    ensures align.Some? ==>
      r == AlignExternClause(UnalignedClause(site, entry, id, w), align.value, DescriptionMarkup(desc), w.text, HeightText(w))
  {
    var height := HeightText(w);
    match entry.extern
    case Some(template) =>
      var clause := site.host.replaceArgs(template, [site.scriptPath, id, w.text, height]);
      if align.Some? then AlignExternClause(clause, align.value, DescriptionMarkup(desc), w.text, height)
      else clause
    case None =>
      var url := site.host.replaceArgs(entry.url, [id, w.text, height]);
      if align.Some? then AlignClause(url, w.text, height, align.value, DescriptionMarkup(desc))
      else NormalClause(url, w.text, height)
  }

  /** Without an extern clause or an alignment, the markup is the normal clause and
      opens the flash object with the sanitized width and the derived height. */
  lemma UnalignedEmbedOpensObject(site: Site, entry: Entry, id: string, w: Dim, desc: Option<string>)
    requires entry.extern.None?
    ensures var r, tag := EmbedMarkup(site, entry, id, w, None, desc), ObjectTag(w.text, HeightText(w));
      |tag| <= |r| && r[..|tag|] == tag
  {
    NormalClauseShape(site.host.replaceArgs(entry.url, [id, w.text, HeightText(w)]), w.text, HeightText(w));
  }

  /** The stages of the decision chain a call gets past. */
  predicate HasParams(service: Option<string>, id: Option<string>) {
    service.Some? && id.Some?
  }

  predicate KnownService(site: Site, service: Option<string>, id: Option<string>) {
    HasParams(service, id) && Trim(service.value) in site.registry
  }

  predicate AcceptedWidth(site: Site, b: Bounds, service: Option<string>, id: Option<string>, width: Option<string>) {
    KnownService(site, service, id) && CheckWidth(width, b).Some?
  }

  predicate AcceptedId(site: Site, b: Bounds, service: Option<string>, id: Option<string>, width: Option<string>) {
    AcceptedWidth(site, b, service, id, width) && VerifyId(site.host, Trim(id.value))
  }

  /** `parserFunction_ev` after its one-time initialization, as a value. The checks
      run in a fixed order and the first one that fails decides the result: missing
      arguments (tested before trimming), an unknown service, an unacceptable width,
      an empty id. */
  function Decide(site: Site, b: Bounds, service: Option<string>, id: Option<string>,
                  width: Option<string>, align: Option<string>, desc: Option<string>): (d: Decision)
    ensures d == Fail(MissingParams) <==> !HasParams(service, id)
    ensures (d.Fail? && d.failure.UnknownService?) <==>
      HasParams(service, id) && !KnownService(site, service, id)
    ensures d.Fail? && d.failure.UnknownService? ==> d.failure.service == Trim(service.value)
    ensures (d.Fail? && d.failure.IllegalWidth?) <==>
      KnownService(site, service, id) && !AcceptedWidth(site, b, service, id, width)
    ensures d.Fail? && d.failure.IllegalWidth? ==> width.Some? && d.failure.width == width.value
    ensures (d.Fail? && d.failure.BadId?) <==>
      AcceptedWidth(site, b, service, id, width) && !AcceptedId(site, b, service, id, width)
    ensures d.Fail? && d.failure.BadId? ==> d.failure == BadId(Trim(service.value), Trim(id.value))
    ensures d.Embed? <==> AcceptedId(site, b, service, id, width)
    ensures d.Embed? ==>
      var entry := site.registry[Trim(service.value)];
      d.viaExtern == entry.extern.Some? &&
      d.markup == EmbedMarkup(site, entry, Trim(id.value), CheckWidth(width, b).value, align, desc)
  {
    if service.None? || id.None? then Fail(MissingParams)
    else DecideTrimmed(site, b, Trim(service.value), Trim(id.value), width, align, desc)
  }

  /** The chain after the arguments are known to be present and have been trimmed. */
  function DecideTrimmed(site: Site, b: Bounds, service: string, id: string,
                         width: Option<string>, align: Option<string>, desc: Option<string>): Decision
  {
    match GetServiceEntry(site.registry, service)
    case None => Fail(UnknownService(service))
    case Some(entry) =>
      match CheckWidth(width, b)
      case None => Fail(IllegalWidth(width.value))
      case Some(w) =>
        if !VerifyId(site.host, id) then Fail(BadId(service, id))
        else Embed(EmbedMarkup(site, entry, id, w, align, desc), entry.extern.Some?)
  }

  /** With both arguments present, the chain continues with the trimmed arguments. */
  lemma DecidePresent(site: Site, b: Bounds, service: string, id: string,
                      width: Option<string>, align: Option<string>, desc: Option<string>)
    ensures Decide(site, b, Some(service), Some(id), width, align, desc) ==
            DecideTrimmed(site, b, Trim(service), Trim(id), width, align, desc)
  {
  }

  /** The error box each failure is rendered as, holding that failure's message. */
  function FailureText(h: Host, f: Failure): (r: string)
    ensures f.MissingParams? ==> ErrorMessage(r) == Some(h.msg(MissingParamsKey, []))
    ensures f.UnknownService? ==> ErrorMessage(r) == Some(h.msg(UnrecognizedServiceKey, [h.escape(f.service)]))
    ensures f.IllegalWidth? ==> ErrorMessage(r) == Some(h.msgForContent(IllegalWidthKey, [h.escape(f.width)]))
    ensures f.BadId? ==>
      ErrorMessage(r) == Some(h.msgForContent(BadIdKey, [h.escape(f.id), h.escape(f.service)]))
  {
    match f
    case MissingParams => ErrMissingParams(h)
    case UnknownService(service) => ErrBadService(h, service)
    case IllegalWidth(width) => ErrBadWidth(h, width)
    case BadId(service, id) => ErrBadId(h, service, id)
  }

  /** What the parser function returns for a decision: failures as plain error-box
      strings, embeds as final HTML. */
  function Render(h: Host, d: Decision): (o: Outcome)
    ensures o.Error? <==> d.Fail?
    ensures d.Embed? ==> o.text == d.markup
    ensures d.Fail? ==> o == Error(FailureText(h, d.failure))
  {
    match d
    case Fail(f) => Error(FailureText(h, f))
    case Embed(markup, _) => Html(markup)
  }

  /** Whether a call with these arguments asks the host to disable its parser cache:
      exactly when every check passes and the entry has an extern clause. */
  predicate DisablesCache(site: Site, b: Bounds, service: Option<string>, id: Option<string>, width: Option<string>) {
    var d := Decide(site, b, service, id, width, None, None);
    d.Embed? && d.viaExtern
  }

  lemma DisablesCacheExactly(site: Site, b: Bounds, service: Option<string>, id: Option<string>,
                             width: Option<string>, align: Option<string>, desc: Option<string>)
    ensures var d := Decide(site, b, service, id, width, align, desc);
      DisablesCache(site, b, service, id, width) <==> d.Embed? && d.viaExtern
    ensures DisablesCache(site, b, service, id, width) <==>
      AcceptedId(site, b, service, id, width) && site.registry[Trim(service.value)].extern.Some?
  {
  }

  /** With no alignment the description is ignored. */
  lemma UnalignedIgnoresDesc(site: Site, b: Bounds, service: Option<string>, id: Option<string>,
                             width: Option<string>, desc1: Option<string>, desc2: Option<string>)
    ensures Decide(site, b, service, id, width, None, desc1) == Decide(site, b, service, id, width, None, desc2)
  {
  }

  /** An alignment never changes whether a call fails or how, and the aligned markup,
      with or without an extern clause, is the thumbnail wrapper around the unaligned
      markup, captioned by the description block. */
  lemma AlignedWrapsUnaligned(site: Site, b: Bounds, service: Option<string>, id: Option<string>,
                              width: Option<string>, align: string, desc: Option<string>)
    ensures var plain := Decide(site, b, service, id, width, None, desc);
      var aligned := Decide(site, b, service, id, width, Some(align), desc);
      (plain.Fail? ==> aligned == plain) &&
      (plain.Embed? ==>
        var w := CheckWidth(width, b).value;
        aligned == Embed(AlignExternClause(plain.markup, align, DescriptionMarkup(desc), w.text, HeightText(w)),
                         plain.viaExtern))
  {
  }

  /** Two registries that agree on every entry's `url` and `extern` give the same
      decisions: a configured default width, default ratio or id pattern has no
      effect. */
  lemma EntryDefaultsIgnored(site: Site, registry: map<string, Entry>, b: Bounds,
                             service: Option<string>, id: Option<string>,
                             width: Option<string>, align: Option<string>, desc: Option<string>)
    requires registry.Keys == site.registry.Keys
    requires forall s :: s in registry ==>
      registry[s].url == site.registry[s].url && registry[s].extern == site.registry[s].extern
    ensures Decide(site.(registry := registry), b, service, id, width, align, desc) ==
            Decide(site, b, service, id, width, align, desc)
  {
    if HasParams(service, id) && Trim(service.value) in registry {
      var svc := Trim(service.value);
      assert registry[svc].url == site.registry[svc].url;
    }
  }

  /** Trimming the service and the id before the call changes nothing: the resolver
      trims them itself, and trimming is idempotent. */
  lemma {:induction false} PreTrimmedArgumentsAgree(site: Site, b: Bounds, service: string, id: string,
                                 width: Option<string>, align: Option<string>, desc: Option<string>)
    ensures Decide(site, b, Some(Trim(service)), Some(Trim(id)), width, align, desc) ==
            Decide(site, b, Some(service), Some(id), width, align, desc)
  {
    var svc, ident := Trim(service), Trim(id);
    TrimIdempotent(service);
    TrimIdempotent(id);
    DecidePresent(site, b, svc, ident, width, align, desc);
    DecidePresent(site, b, service, id, width, align, desc);
    assert Trim(svc) == svc && Trim(ident) == ident;
  }

  /** An absent width is accepted whatever the bounds, even when 425 lies outside
      them, and gives the dimensions 425 x 350. */
  lemma AbsentWidthIgnoresBounds(b: Bounds)
    ensures CheckWidth(None, b) == Some(Dim("425", 425))
    ensures HeightText(CheckWidth(None, b).value) == "350"
  {
    DefaultDimensions();
  }

  /** With an escaping primitive that keeps emptiness, the id check fails exactly
      when the trimmed id is empty. */
  lemma IdCheckIsPresenceCheck(site: Site, b: Bounds, service: Option<string>, id: Option<string>,
                               width: Option<string>, align: Option<string>, desc: Option<string>)
    requires EscapeKeepsEmptiness(site.host)
    requires AcceptedWidth(site, b, service, id, width)
    ensures Decide(site, b, service, id, width, align, desc).Fail? <==> Trim(id.value) == []
  {
    assert VerifyId(site.host, Trim(id.value)) <==> Trim(id.value) != [];
  }

  /** A registered service with no extern clause, a non-empty id and no width: the
      normal clause at 425 x 350, its URL template filled with the trimmed id and those
      dimensions, and no cache disabling. */
  lemma DefaultEmbed(site: Site, b: Bounds, service: string, id: string)
    requires EscapeKeepsEmptiness(site.host)
    requires Trim(service) in site.registry && site.registry[Trim(service)].extern.None?
    requires Trim(id) != []
    ensures Decide(site, b, Some(service), Some(id), None, None, None) ==
      Embed(NormalClause(site.host.replaceArgs(site.registry[Trim(service)].url, [Trim(id), "425", "350"]), "425", "350"),
            false)
  {
    var svc, ident := Trim(service), Trim(id);
    var entry := site.registry[svc];
    DecidePresent(site, b, service, id, None, None, None);
    AbsentWidthIgnoresBounds(b);
    var w := CheckWidth(None, b).value;
    assert VerifyId(site.host, ident);
    assert DecideTrimmed(site, b, svc, ident, None, None, None) == Embed(EmbedMarkup(site, entry, ident, w, None, None), false);
    assert EmbedMarkup(site, entry, ident, w, None, None) == UnalignedClause(site, entry, ident, w);
  }

  /** Present arguments whose trimmed service is not registered fail as an unknown
      service, naming the trimmed service, whatever the width, id, alignment and
      description. */
  lemma UnknownServiceFails(site: Site, b: Bounds, service: string, id: string,
                            width: Option<string>, align: Option<string>, desc: Option<string>)
    requires Trim(service) !in site.registry
    ensures Decide(site, b, Some(service), Some(id), width, align, desc) == Fail(UnknownService(Trim(service)))
  {
  }

  /** The service "unknownxyz", if unregistered, fails as such, naming it, whatever the width. */
  lemma UnknownServiceScenario(site: Site, b: Bounds, width: Option<string>)
    requires "unknownxyz" !in site.registry
    ensures Decide(site, b, Some("unknownxyz"), Some("abc123"), width, None, None) ==
            Fail(UnknownService("unknownxyz"))
  {
    TrimOfTrimmed("unknownxyz");
  }

  /** A width of 50 is below every clamped minimum and fails, naming "50". */
  lemma NarrowWidthScenario(site: Site, b: Bounds, service: string)
    requires Clamped(b) && Trim(service) in site.registry
    ensures Decide(site, b, Some(service), Some("abc123"), Some("50"), None, None) ==
            Fail(IllegalWidth("50"))
  {
    assert AllDigits("50");
    assert "50"[..1] == "5";
    assert DigitsValue("50") == 50;
    IntegerValueOfDigits("50");
    assert IntegerValue("50") == Some(50);
    assert CheckWidth(Some("50"), b).None?;
    DecidePresent(site, b, service, "abc123", Some("50"), None, None);
  }
}
