/**
 The status derived from one notification and the default style
 function that turns it into a style patch for the status bar.
 */
module StatusStyle {
  import opened Wrappers
  import opened Text

  /** A style property bag: CSS property name to value. */
  type Style = map<string, string>

  /** What the handler hands to the style function for one notification.
      `progress` is absent when the payload of a `progress` notification
      carries no percentage (JavaScript's `undefined`). */
  datatype Status = Status(event: string, color: string, progress: Option<int>, message: string)

  /** The largest 32-bit signed integer, used as z-index so the bar sits above everything. */
  const MaxZIndex: int := 0x7FFF_FFFF

  /** The properties the default style function always sets. */
  const StyleKeys: set<string> := {"backgroundColor", "height", "position", "top", "width", "zIndex"}

  /** The `width` value: the progress followed by `vw` (viewport-width
      units); an absent progress prints as `undefined`. */
  function Width(progress: Option<int>): (w: string)
    ensures |w| >= 3 && w[|w| - 2..] == "vw"
    ensures progress.Some? <==> IsNumeral(w[..|w| - 2])
  {
    match progress
    case Some(p) => IntToString(p) + "vw"
    case None => "undefinedvw"
  }

  /** The percentage can be read back from the `width` value. */
  lemma WidthRoundTrip(p: int)
    ensures var w := Width(Some(p)); IsNumeral(w[..|w| - 2]) && ParseInt(w[..|w| - 2]) == p
  {
    var w := Width(Some(p));
    assert w[..|w| - 2] == IntToString(p);
    ParseIntToString(p);
  }

  /** Different progress values never produce the same `width`. */
  lemma WidthInjective(a: Option<int>, b: Option<int>)
    requires Width(a) == Width(b)
    ensures a == b
  {
    if a.Some? {
      assert b.Some?;
      WidthRoundTrip(a.value);
      WidthRoundTrip(b.value);
    }
  }

  /** The default style: a 2px bar along the top of the viewport in the
      status colour, as wide as the progress, above every other element.
      Touch devices get `absolute` positioning because `fixed` is
      unreliable there. */
  function DefaultStyle(status: Status, maxTouchPoints: int): (s: Style)
    ensures s.Keys == StyleKeys
    ensures s["backgroundColor"] == status.color
    ensures s["height"] == "2px"
    ensures s["top"] == "0px"
    ensures s["position"] == (if maxTouchPoints > 0 then "absolute" else "fixed")
    ensures s["width"] == Width(status.progress)
    ensures s["zIndex"] == IntToString(MaxZIndex)
  {
    var position := if maxTouchPoints > 0 then "absolute" else "fixed";
    map[
      "backgroundColor" := status.color,
      "height" := "2px",
      "position" := position,
      "top" := "0px",
      "width" := Width(status.progress),
      "zIndex" := IntToString(MaxZIndex)
    ]
  }

  /** The z-index reads back as the largest 32-bit signed integer. */
  lemma ZIndexIsMax(status: Status, maxTouchPoints: int)
    ensures var s := DefaultStyle(status, maxTouchPoints);
            "zIndex" in s && IsNumeral(s["zIndex"]) && ParseInt(s["zIndex"]) == MaxZIndex
  {
    ParseIntToString(MaxZIndex);
  }
}
