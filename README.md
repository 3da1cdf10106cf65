# EmbedVideo resolver, modelled in Dafny

A MediaWiki extension's `{{#ev:service|id|width|align|desc}}` parser function, and its
legacy spelling `{{#evp:service|id|desc|align|width}}`, turn a video service name and
a media id into embed markup. The markup is either a flash object/embed pair or one
wrapped in an aligned, captioned thumbnail. If something is wrong, they return an
inline error box instead. This project models the `EmbedVideo` class that does this
and proves properties of the model:

- the first-failure-wins decision chain: missing arguments, unknown service, bad
  width, empty id;
- the width sanitizing and its bounds;
- the height derived from the width;
- the four markup shapes and the algebra between them;
- the error boxes;
- the one-shot clamp of the configured width bounds;
- the cache-disable request on the extern path.

Files and modules:

- `wrappers.dfy` (`Wrappers`): `Option`, for PHP's nullable arguments.
- `php.dfy` (`Php`): the PHP built-ins the class relies on. These are `trim` with its
  default character list, `is_numeric` with the value of a numeric string, `round`
  of a width divided by 425/350, and number-to-text conversion.
- `host.dfy` (`HostServices`): the host wiki's services, given as function values.
  These are `htmlspecialchars`, `wfMsg`, `wfMsgForContent` and `wfMsgReplaceArgs`,
  plus the parser's `disableCache()`, whose calls a ghost counter records.
- `markup.dfy` (`Markup`): `generateNormalClause`, `generateAlignClause`,
  `generateAlignExternClause`, `getDescriptionMarkup` and the four `err*` builders.
- `resolver.dfy` (`Resolver`): the registry, the bounds clamp, `sanitizeWidth`,
  `getHeight` and `verifyID` as values. `Decide` gives the value-level meaning of
  `parserFunction_ev`, and `Render` turns a decision into the string or HTML result
  handed back to the host.
- `extension.dfy` (`Extension`): the class `EmbedVideo`. It holds the `initialized`
  flag and the width bounds. Its methods `VerifyWidthMinAndMax`, `SanitizeWidth`,
  `ParserFunctionEv`, `Resolve` and `ParserFunctionEvp` follow the source step by
  step. Each is proved to do what `Resolver` says.

The host's services are parameters. Every property therefore holds whatever messages,
escaping and template substitution the host provides. The only exceptions are the
lemmas that require `EscapeKeepsEmptiness`: escaping maps the empty string, and only
the empty string, to the empty string.

### Behaviour worth knowing

- `sanitizeWidth` and `getHeight` read `$entry`, which is not defined in either method
  (EmbedVideo_body.php:170, EmbedVideo_body.php:184). As a result, a service's
  `default_width` and `default_ratio` are never used. An absent width is always 425,
  and the ratio is always 425/350. `EntryDefaultsIgnored` proves that these settings
  have no effect.
- An absent width is accepted without any bounds check, even when 425 lies outside
  the bounds (`AbsentWidthIgnoresBounds`).
- The caption block is wrapped twice. `getDescriptionMarkup` already returns a
  `thumbcaption` div, and both aligned shapes wrap it in another one. When the
  description is absent, the outer `thumbcaption` div is still emitted, empty.
- A present width is interpolated into the markup exactly as written (for example
  `" 300"` or `"+300"`), not as the number it denotes. The id in the URL is the trimmed
  id, unescaped. The description is not escaped.
- The service is looked up before the width is checked (EmbedVideo_body.php:81-86).
  An unknown service is therefore reported even when the width is also bad (`Decide`,
  `UnknownServiceFails`).
- The missing-arguments and unknown-service messages use the reader's interface
  language (`wfMsg`). The bad-width and bad-id messages use the wiki's content
  language (`wfMsgForContent`).

## Model

| member | source | states |
|---|---|---|
| `Php.TrimLeft` | EmbedVideo_body.php:78-79 | the result is the suffix left after the longest prefix of trim characters |
| `Php.TrimRight` | EmbedVideo_body.php:78-79 | the result is the prefix left before the longest suffix of trim characters |
| `Php.Trim` | EmbedVideo_body.php:78-79 | the result is the slice of the argument with only trim characters before and after it, and it neither starts nor ends with one |
| `Php.TrimIsRightOfLeft` | EmbedVideo_body.php:78-79 | trimming both ends is the same as stripping the trailing trim characters from what is left after stripping the leading ones |
| `Php.TrimIdempotent` | EmbedVideo_body.php:78-79 | trimming an already trimmed argument changes nothing |
| `Php.IntegerValue` | EmbedVideo_body.php:176-178 | a string is numeric iff it is leading whitespace, at most one sign, then one or more digits, and its value is then those digits' value, negated after a minus sign |
| `Php.NatToString` | EmbedVideo_body.php:173 | PHP's decimal text for a number: digits only, with no leading zero |
| `Php.IntToString` | EmbedVideo_body.php:101-113 | the text a rounded height is interpolated as: a minus sign exactly for negative numbers, then decimal digits with no leading zero (except for 0 itself) |
| `Php.IntegerValueOfIntToString` | EmbedVideo_body.php:176-178 | the text printed for a number reads back as that number |
| `Php.RoundedHeight` | EmbedVideo_body.php:181-187 | the height is the integer nearest to width * 350 / 425, and non-negative for non-negative widths |
| `Php.RoundedHeightUnique` | EmbedVideo_body.php:186 | the nearest-integer property determines the height uniquely |
| `Php.RoundedHeightMonotonic` | EmbedVideo_body.php:186 | a wider embed is never less tall |
| `Markup.NormalClauseShape` | EmbedVideo_body.php:121-130 | the normal clause opens the object with the given width and height and closes embed and object |
| `Markup.AlignExternClauseShape` | EmbedVideo_body.php:132-141 | the wrapped clause can be read back from inside the thumbnail container, which ends with the caption |
| `Markup.AlignClause` | EmbedVideo_body.php:121-157 | the aligned clause is, character for character, the thumbnail wrapper applied to the normal clause |
| `Markup.DescriptionMarkup` | EmbedVideo_body.php:189-194 | empty exactly when there is no description, otherwise the description verbatim inside a caption div |
| `Markup.ErrorBox` | EmbedVideo_body.php:204-226 | the message can be read back from the error box |
| `Markup.ErrMissingParams` | EmbedVideo_body.php:217-220 | the box holds the fixed missing-params interface message |
| `Markup.ErrBadService` | EmbedVideo_body.php:222-226 | the box holds the unrecognized-service interface message with the escaped service |
| `Markup.ErrBadWidth` | EmbedVideo_body.php:211-215 | the box holds the illegal-width content message with the escaped width argument |
| `Markup.ErrBadId` | EmbedVideo_body.php:204-209 | the box holds the bad-id content message with the escaped id, then the escaped service |
| `Resolver.ClampMin` | EmbedVideo_body.php:231-232 | the new minimum is at least 100, equals a numeric setting of at least 100, and is otherwise 100 |
| `Resolver.ClampMax` | EmbedVideo_body.php:233-234 | the new maximum is at most 1024, equals a numeric setting of at most 1024, and is otherwise 1024 |
| `Resolver.ClampIdempotent` | EmbedVideo_body.php:228-235 | clamping clamped bounds changes nothing |
| `Resolver.ClampMayEmptyTheRange` | EmbedVideo_body.php:228-235 | the clamp is one-sided: a minimum of 600 and a maximum of 300 both survive it, so the clamped range is empty |
| `Resolver.EmptyRangeRejectsExplicitWidths` | EmbedVideo_body.php:169-178 | when the maximum is below the minimum, no explicit width is accepted, while an absent width still is |
| `Resolver.GetServiceEntry` | EmbedVideo_body.php:159-164 | an entry is found exactly when the name is a key of the registry, and it is that key's entry |
| `Resolver.CheckWidth` | EmbedVideo_body.php:166-179 | an absent width becomes 425; a present one is accepted iff numeric and within [min, max] and is then kept as written; an accepted width's text reads back as its value |
| `Resolver.GetHeight` | EmbedVideo_body.php:181-187 | the height is the integer nearest to the width divided by 425/350 |
| `Resolver.HeightWithinClampedBounds` | EmbedVideo_body.php:176-187 | a width within clamped bounds gives a height between 82 and 843 |
| `Resolver.DefaultDimensions` | EmbedVideo_body.php:169-186 | the default width prints as "425" and gives height 350, printed "350" |
| `Resolver.VerifyId` | EmbedVideo_body.php:196-202 | with an escaping primitive that keeps emptiness, the id passes iff it is not empty: a presence check, with no pattern checked |
| `Resolver.EmbedMarkup` | EmbedVideo_body.php:97-113 | an unaligned call embeds the filled extern clause, or else the normal clause around the filled URL template; an aligned call embeds that same clause inside the captioned thumbnail container, on both paths |
| `Resolver.UnalignedEmbedOpensObject` | EmbedVideo_body.php:107-113 | without extern clause or alignment the markup opens the object at the sanitized width and derived height |
| `Resolver.Decide` | EmbedVideo_body.php:74-114 | missing arguments fail first, then an unknown trimmed service, then a bad width (naming the width as given), then a bad id; each failure happens iff the earlier checks passed and its own check fails, and only a call passing all four embeds the markup of its entry |
| `Resolver.FailureText` | EmbedVideo_body.php:75-95 | each failure kind is rendered as an error box holding its own message: missing params with no arguments, unknown service with the escaped service, bad width with the escaped width, bad id with the escaped id and then the escaped service |
| `Resolver.Render` | EmbedVideo_body.php:75-114 | a failure becomes the plain error-box string of that failure, and an embed becomes HTML holding the markup |
| `Resolver.DisablesCacheExactly` | EmbedVideo_body.php:97-104 | the cache is disabled iff every check passed and the entry has an extern clause, whatever the alignment |
| `Resolver.UnalignedIgnoresDesc` | EmbedVideo_body.php:89-91 | without an alignment the description has no effect |
| `Resolver.AlignedWrapsUnaligned` | EmbedVideo_body.php:89-114 | an alignment never changes a failure, and the aligned markup is the thumbnail wrapper, captioned by the description block, around the unaligned markup, on both the extern and the URL path |
| `Resolver.EntryDefaultsIgnored` | EmbedVideo_body.php:166-187 | a configured default width, default ratio or id pattern never changes a decision |
| `Resolver.PreTrimmedArgumentsAgree` | EmbedVideo_body.php:78-79 | trimming the service and id beforehand changes no decision |
| `Resolver.AbsentWidthIgnoresBounds` | EmbedVideo_body.php:169-174 | an absent width is accepted as 425 x 350 whatever the bounds |
| `Resolver.IdCheckIsPresenceCheck` | EmbedVideo_body.php:93-95 | once the width is accepted, and if escaping keeps emptiness, the call fails iff the trimmed id is empty |
| `Resolver.DefaultEmbed` | EmbedVideo_body.php:107-114 | a registered service without an extern clause, a non-empty id and no width give the normal clause at 425 x 350 with the trimmed id filled into the URL, and do not disable the cache |
| `Resolver.UnknownServiceFails` | EmbedVideo_body.php:74-83 | present arguments whose trimmed service is not registered fail as an unknown service naming the trimmed service, whatever the width, id, alignment and description |
| `Resolver.UnknownServiceScenario` | EmbedVideo_body.php:81-83 | the service "unknownxyz", if unregistered, fails naming "unknownxyz", whatever the width |
| `Resolver.NarrowWidthScenario` | EmbedVideo_body.php:85-86 | width "50" fails under any clamped bounds, naming "50" |
| `HostServices.Parser.DisableCache` | EmbedVideo_body.php:100 | one more cache-disable request is recorded |
| `Extension.EmbedVideo.constructor` | EmbedVideo_body.php:7 | a new object is not initialized and holds the configured bounds |
| `Extension.EmbedVideo.VerifyWidthMinAndMax` | EmbedVideo_body.php:228-235 | the bounds are replaced in place by their clamped values, which satisfy the object's invariant |
| `Extension.EmbedVideo.SanitizeWidth` | EmbedVideo_body.php:166-179 | returns whether the width is accepted and the value the reference holds afterwards: 425 for an absent width, the argument unchanged otherwise |
| `Extension.EmbedVideo.ParserFunctionEv` | EmbedVideo_body.php:61-119 | only the first call clamps the bounds; the result is the rendered decision under the clamped bounds; the cache-disable count rises by one exactly on the extern path |
| `Extension.EmbedVideo.Resolve` | EmbedVideo_body.php:74-114 | the checks and the markup built step by step equal the rendered decision, and the cache is to be disabled exactly on the extern path |
| `Extension.EmbedVideo.ParserFunctionEvp` | EmbedVideo_body.php:45-49 | the legacy order (service, id, desc, align, width) gives the same result, state and cache effect as the primary order |

## Left out

- Hook registration and magic words (`setup`, `parserFunctionMagic`) and
  `wfLoadExtensionMessages` are host plumbing and are not modelled.
- `htmlspecialchars`, `wfMsg`, `wfMsgForContent`, `wfMsgReplaceArgs` and the parser
  object are not modelled. Their code belongs to the host, so they are function
  values. Only the cache-disable request is recorded, as a count.
- IntegerValue: models `is_numeric` only for integer literals: optional leading
  whitespace, an optional sign, then digits. PHP also accepts fractions, exponents,
  (before PHP 7) hexadecimal strings such as "0x190", and (since PHP 8) trailing
  whitespace. Here such widths are rejected with the
  bad-width error, while PHP would accept them when in range.
- RoundedHeight: uses exact integer arithmetic instead of PHP's float division and
  `round`. 14w / 17 is never closer than 1/34 to a half. For widths of realistic size, the
  float error cannot change the rounded result.
- Setting (datatype): a configured width bound is an integer or not numeric. Numeric
  strings and fractional bounds are not modelled.
- Extension.EmbedVideo.ParserFunctionEv: the width bounds are process-wide globals
  in the source. Here they are fields of the object, and the host does not reconfigure
  them between calls (`Valid` keeps them clamped once initialized). Redundant
  initialization from concurrent first calls is not modelled.
- Extension.EmbedVideo.Resolve: the cache-disable request is issued once the result
  is built, not just before the extern clause is filled. Nothing in between can
  observe it.
- A registry entry configured as an empty PHP array is falsy, so the source treats it
  as an unknown service. Here every entry has a URL template.
- The `noparse` and `isHTML` flags of the returned array are represented only by the
  `Html` tag of `Outcome`.
- PHP notices (undefined index, undefined variable) and the `@` that silences them
  are represented only by their effect: a missing key or an unset `extern` is absent.
