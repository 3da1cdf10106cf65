/** The markup builders of the `EmbedVideo` class: the flash embed clause, the two
    captioned thumbnail wrappers, the caption block and the four error boxes. */
module Markup {
  import opened Wrappers
  import opened HostServices

  /** The start tag of the flash object, which carries the embed's dimensions. */
  function ObjectTag(width: string, height: string): string {
    "<object width=\"" + width + "\" height=\"" + height + "\">"
  }

  /** The two opening tags of the aligned thumbnail container. */
  function ThumbOpen(align: string, width: string): string {
    "<div class=\"thumb t" + align + "\">" +
    "<div class=\"thumbinner\" style=\"width: " + width + "px;\">"
  }

  const CaptionOpen: string := "<div class=\"thumbcaption\">"
  const ThumbClose: string := "</div></div></div>"

  predicate EndsWith(s: string, suffix: string) {
    |suffix| <= |s| && s[|s| - |suffix|..] == suffix
  }

  /** The two `param` tags of the flash object. */
  function ObjectParams(url: string): string {
    "<param name=\"movie\" value=\"" + url + "\"></param>" +
    "<param name=\"wmode\" value=\"transparent\"></param>"
  }

  /** The `embed` start tag up to, and not including, its closing `>`. */
  function EmbedTagBody(url: string, width: string, height: string): string {
    "<embed src=\"" + url + "\" type=\"application/x-shockwave-flash\"" +
    " wmode=\"transparent\" width=\"" + width + "\" height=\"" + height + "\""
  }

  /** `generateNormalClause`: an object/embed pair showing `url` at width x height. */
  function NormalClause(url: string, width: string, height: string): string {
    ObjectTag(width, height) + ObjectParams(url) + EmbedTagBody(url, width, height) + ">" +
    "</embed></object>"
  }

  /** The normal clause opens the object with the requested dimensions and closes the
      embed and the object. */
  lemma NormalClauseShape(url: string, width: string, height: string)
    ensures var r, tag := NormalClause(url, width, height), ObjectTag(width, height);
      |tag| <= |r| && r[..|tag|] == tag && EndsWith(r, "</embed></object>")
  {
    var tag, rest := ObjectTag(width, height), ObjectParams(url) + EmbedTagBody(url, width, height) + ">";
    assert NormalClause(url, width, height) == tag + rest + "</embed></object>";
    Framed(tag, rest, "</embed></object>");
  }

  /** Concatenation keeps its first part as a prefix and its last part as a suffix,
      with the middle in between. */
  lemma Framed(front: string, middle: string, back: string)
    ensures var r := front + middle + back;
      r[..|front|] == front && r[|front|..|front| + |middle|] == middle && EndsWith(r, back)
  {
  }

  /** `generateAlignExternClause`: wraps an already built clause in the aligned
      thumbnail container followed by a caption block holding `desc`; the height is
      accepted and not used. */
  function AlignExternClause(clause: string, align: string, desc: string, width: string, height: string): string {
    ThumbOpen(align, width) + clause + CaptionOpen + desc + ThumbClose
  }

  /** The wrapped clause can be read back from the wrapper, which ends with the caption. */
  lemma AlignExternClauseShape(clause: string, align: string, desc: string, width: string, height: string)
    ensures var r, n := AlignExternClause(clause, align, desc, width, height), |ThumbOpen(align, width)|;
      n + |clause| <= |r| && r[..n] == ThumbOpen(align, width) && r[n..n + |clause|] == clause &&
      EndsWith(r, CaptionOpen + desc + ThumbClose)
  {
    var open, tail := ThumbOpen(align, width), CaptionOpen + desc + ThumbClose;
    assert AlignExternClause(clause, align, desc, width, height) == open + clause + tail;
    Framed(open, clause, tail);
  }

  /** `generateAlignClause`, written out in full in the source, is character for
      character the thumbnail wrapper applied to the normal clause. */
  function AlignClause(url: string, width: string, height: string, align: string, desc: string): (r: string)
    ensures r == AlignExternClause(NormalClause(url, width, height), align, desc, width, height)
  {
    var thumb, flash := ThumbOpen(align, width),
      ObjectTag(width, height) + ObjectParams(url) + EmbedTagBody(url, width, height);
    EmbedCloseRegrouped(thumb, flash, CaptionOpen, desc, ThumbClose);
    thumb + flash + "></embed>" + "</object>" + CaptionOpen + desc + ThumbClose
  }

  /** The aligned clause closes its embed as `"></embed>" + "</object>"`, the normal
      clause as `">" + "</embed></object>"`: the same characters. */
  lemma EmbedCloseRegrouped(thumb: string, flash: string, caption: string, desc: string, close: string)
    ensures thumb + flash + "></embed>" + "</object>" + caption + desc + close ==
            thumb + (flash + ">" + "</embed></object>") + caption + desc + close
  {
    var tail := "></embed>" + "</object>";
    assert tail == ">" + "</embed></object>";
    assert thumb + flash + "></embed>" + "</object>" == thumb + (flash + tail);
  }

  /** `getDescriptionMarkup`: a caption block around `desc`, or nothing when there is
      no description. `desc` is trusted markup and is not escaped. */
  function DescriptionMarkup(desc: Option<string>): (r: string)
    ensures desc.None? <==> r == []
    ensures desc.Some? ==>
      |CaptionOpen| + 6 <= |r| && r[..|CaptionOpen|] == CaptionOpen &&
      r[|CaptionOpen|..|r| - 6] == desc.value && r[|r| - 6..] == "</div>"
  {
    if desc.Some? then CaptionOpen + desc.value + "</div>" else ""
  }

  const ErrorBoxOpen: string := "<div class=\"errorbox\">"

  /** The text of an error box, read back from the box. */
  function ErrorMessage(box: string): Option<string> {
    if |ErrorBoxOpen| + 6 <= |box| && box[..|ErrorBoxOpen|] == ErrorBoxOpen && box[|box| - 6..] == "</div>"
    then Some(box[|ErrorBoxOpen|..|box| - 6])
    else None
  }

  /** The uniform error fragment every failure is rendered as. */
  function ErrorBox(msg: string): (r: string)
    ensures ErrorMessage(r) == Some(msg)
  {
    var r := ErrorBoxOpen + msg + "</div>";
    assert r[..|ErrorBoxOpen|] == ErrorBoxOpen && r[|r| - 6..] == "</div>";
    r
  }

  const MissingParamsKey: string := "embedvideo-missing-params"
  const UnrecognizedServiceKey: string := "embedvideo-unrecognized-service"
  const IllegalWidthKey: string := "embedvideo-illegal-width"
  const BadIdKey: string := "embedvideo-bad-id"

  /** `errMissingParams`: a fixed interface-language message; the service and id it is
      passed are not used, so they are not parameters here. */
  function ErrMissingParams(h: Host): (r: string)
    ensures ErrorMessage(r) == Some(h.msg(MissingParamsKey, []))
  {
    ErrorBox(h.msg(MissingParamsKey, []))
  }

  /** `errBadService`: an interface-language message naming the escaped service. */
  function ErrBadService(h: Host, service: string): (r: string)
    ensures ErrorMessage(r) == Some(h.msg(UnrecognizedServiceKey, [h.escape(service)]))
  {
    ErrorBox(h.msg(UnrecognizedServiceKey, [h.escape(service)]))
  }

  /** `errBadWidth`: a content-language message naming the escaped width argument. */
  function ErrBadWidth(h: Host, width: string): (r: string)
    ensures ErrorMessage(r) == Some(h.msgForContent(IllegalWidthKey, [h.escape(width)]))
  {
    ErrorBox(h.msgForContent(IllegalWidthKey, [h.escape(width)]))
  }

  /** `errBadID`: a content-language message naming the escaped id, then the escaped service. */
  function ErrBadId(h: Host, service: string, id: string): (r: string)
    ensures ErrorMessage(r) == Some(h.msgForContent(BadIdKey, [h.escape(id), h.escape(service)]))
  {
    ErrorBox(h.msgForContent(BadIdKey, [h.escape(id), h.escape(service)]))
  }
}
