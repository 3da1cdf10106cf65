/** The `EmbedVideo` object the host calls for `{{#ev:...}}` and `{{#evp:...}}`. It
    carries the one-shot `initialized` flag, and the two width bounds its first call
    clamps in place (process-wide `$wgEmbedVideoMinWidth` and `$wgEmbedVideoMaxWidth`
    in the source, kept on the object here). Each method proves that it does what
    the value-level resolver says. */
module Extension {
  import opened Wrappers
  import opened Php
  import opened HostServices
  import opened Markup
  import opened Resolver

  class EmbedVideo {
    var initialized: bool
    var minWidth: Setting
    var maxWidth: Setting

    /** Once initialized, the bounds are numbers and have been clamped. */
    ghost predicate Valid()
      reads this
    {
      initialized ==> minWidth.Number? && maxWidth.Number? && Clamped(Bounds(minWidth.value, maxWidth.value))
    }

    /** The bounds every width check of an initialized object compares against. */
    ghost function CurrentBounds(): Bounds
      reads this
      requires minWidth.Number? && maxWidth.Number?
    {
      Bounds(minWidth.value, maxWidth.value)
    }

    constructor (configuredMin: Setting, configuredMax: Setting)
      ensures Valid() && !initialized
      ensures minWidth == configuredMin && maxWidth == configuredMax
    {
      initialized := false;
      minWidth, maxWidth := configuredMin, configuredMax;
    }

    /** `VerifyWidthMinAndMax`: replaces a non-numeric or too small minimum by 100 and a
        non-numeric or too large maximum by 1024, leaving other values alone. */
    method VerifyWidthMinAndMax()
      modifies this`minWidth, this`maxWidth
      ensures Valid()
      ensures minWidth == Number(ClampMin(old(minWidth)))
      ensures maxWidth == Number(ClampMax(old(maxWidth)))
    {
      if minWidth.NotANumber? || minWidth.value < MinWidthFloor {
        minWidth := Number(MinWidthFloor);
      }
      if maxWidth.NotANumber? || maxWidth.value > MaxWidthCeiling {
        maxWidth := Number(MaxWidthCeiling);
      }
    }

    /** `sanitizeWidth(&$width)`: `ok` is its return value and `sanitized` what `$width`
        holds afterwards. An absent width is replaced by 425 and accepted; a present one
        is kept as written and accepted iff it is numeric and within the bounds. */
    method SanitizeWidth(width: Option<string>) returns (ok: bool, sanitized: Dim)
      requires minWidth.Number? && maxWidth.Number?
      ensures ok <==> CheckWidth(width, Bounds(minWidth.value, maxWidth.value)).Some?
      ensures ok ==> sanitized == CheckWidth(width, Bounds(minWidth.value, maxWidth.value)).value
      ensures width.None? ==> ok && sanitized.text == "425"
      ensures width.Some? ==> sanitized.text == width.value
    {
      if width.None? {
        // The source consults `$entry['default_width']`, but `$entry` is not defined
        // in this method, so the default is always 425.
        DefaultDimensions();
        return true, Dim(NatToString(DefaultWidth), DefaultWidth);
      }
      var value := IntegerValue(width.value);
      if value.None? {
        return false, Dim(width.value, 0);
      }
      ok := minWidth.value <= value.value && value.value <= maxWidth.value;
      sanitized := Dim(width.value, value.value);
    }

    /** `parserFunction_ev(parser, service, id, width, align, desc)`. The first call
        clamps the bounds; every call then returns what `Decide` says, rendered, and
        asks the parser to disable its cache exactly once when the markup comes from
        the service's extern clause. */
    method ParserFunctionEv(site: Site, parser: Parser, service: Option<string>, id: Option<string>,
                            width: Option<string>, align: Option<string>, desc: Option<string>)
      returns (o: Outcome)
      requires Valid()
      modifies this, parser
      ensures Valid() && initialized
      ensures old(initialized) ==> minWidth == old(minWidth) && maxWidth == old(maxWidth)
      ensures !old(initialized) ==>
        minWidth == Number(ClampMin(old(minWidth))) && maxWidth == Number(ClampMax(old(maxWidth)))
      ensures o == Render(site.host, Decide(site, CurrentBounds(), service, id, width, align, desc))
      ensures parser.disableCacheCalls == old(parser.disableCacheCalls) +
        (if DisablesCache(site, CurrentBounds(), service, id, width) then 1 else 0)
    {
      if !initialized {
        VerifyWidthMinAndMax();
        initialized := true;
      }
      var disableCache;
      o, disableCache := Resolve(site, service, id, width, align, desc);
      if disableCache {
        parser.DisableCache();
      }
    }

    /** The body of `parserFunction_ev` after its one-time initialization: the checks in
        their order, each returning its error box, then the markup. `disableCache` says
        whether the source calls `$parser->disableCache()` on the way, which it does
        just before filling an extern clause. */
    method Resolve(site: Site, service: Option<string>, id: Option<string>,
                   width: Option<string>, align: Option<string>, desc: Option<string>)
      returns (o: Outcome, disableCache: bool)
      requires Valid() && initialized
      ensures o == Render(site.host, Decide(site, CurrentBounds(), service, id, width, align, desc))
      ensures disableCache == DisablesCache(site, CurrentBounds(), service, id, width)
    {
      ghost var bounds := CurrentBounds();
      DisablesCacheExactly(site, bounds, service, id, width, align, desc);
      disableCache := false;

      if service.None? || id.None? {
        return Error(ErrMissingParams(site.host)), disableCache;
      }
      var svc := Trim(service.value);
      var ident := Trim(id.value);
      DecidePresent(site, bounds, service.value, id.value, width, align, desc);

      var entry := GetServiceEntry(site.registry, svc);
      if entry.None? {
        return Error(ErrBadService(site.host, svc)), disableCache;
      }

      var ok, w := SanitizeWidth(width);
      if !ok {
        return Error(ErrBadWidth(site.host, width.value)), disableCache;
      }
      var height := GetHeight(w);

      var hasAlign := align.Some?;
      var caption := "";
      if hasAlign {
        caption := DescriptionMarkup(desc);
      }

      if !VerifyId(site.host, ident) {
        return Error(ErrBadId(site.host, svc, ident)), disableCache;
      }

      var heightText := IntToString(height);
      ghost var markup := EmbedMarkup(site, entry.value, ident, w, align, desc);
      assert Decide(site, bounds, service, id, width, align, desc) == Embed(markup, entry.value.extern.Some?);
      if entry.value.extern.Some? {
        disableCache := true;
        var clause := site.host.replaceArgs(entry.value.extern.value, [site.scriptPath, ident, w.text, heightText]);
        if hasAlign {
          clause := AlignExternClause(clause, align.value, caption, w.text, heightText);
        }
        return Html(clause), disableCache;
      }

      var url := site.host.replaceArgs(entry.value.url, [ident, w.text, heightText]);
      var clause;
      if hasAlign {
        clause := AlignClause(url, w.text, heightText, align.value, caption);
      } else {
        clause := NormalClause(url, w.text, heightText);
      }
      return Html(clause), disableCache;
    }

    /** `parserFunction_evp(parser, service, id, desc, align, width)`: the legacy
        argument order, forwarded to `parserFunction_ev` unchanged in every respect. */
    method ParserFunctionEvp(site: Site, parser: Parser, service: Option<string>, id: Option<string>,
                             desc: Option<string>, align: Option<string>, width: Option<string>)
      returns (o: Outcome)
      requires Valid()
      modifies this, parser
      ensures Valid() && initialized
      ensures old(initialized) ==> minWidth == old(minWidth) && maxWidth == old(maxWidth)
      ensures !old(initialized) ==>
        minWidth == Number(ClampMin(old(minWidth))) && maxWidth == Number(ClampMax(old(maxWidth)))
      ensures o == Render(site.host, Decide(site, CurrentBounds(), service, id, width, align, desc))
      ensures parser.disableCacheCalls == old(parser.disableCacheCalls) +
        (if DisablesCache(site, CurrentBounds(), service, id, width) then 1 else 0)
    {
      o := ParserFunctionEv(site, parser, service, id, width, align, desc);
    }
  }

  /** A client: the first call clamps misconfigured bounds, whatever its arguments;
      later calls leave them alone, and a call that fails never touches the cache. */
  method OneShotInitialization(site: Site) {
    var ev := new EmbedVideo(Number(50), Number(2000));
    var parser := new Parser();
    var o := ev.ParserFunctionEv(site, parser, None, Some("abc123"), None, None, None);
    assert ev.minWidth == Number(100) && ev.maxWidth == Number(1024);
    assert o == Error(ErrMissingParams(site.host)) && parser.disableCacheCalls == 0;
    o := ev.ParserFunctionEvp(site, parser, Some("youtube"), None, None, None, Some("50"));
    assert ev.minWidth == Number(100) && ev.maxWidth == Number(1024);
    assert o == Error(ErrMissingParams(site.host)) && parser.disableCacheCalls == 0;
  }
}
