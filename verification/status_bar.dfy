/**
 The `message` listener of the status bar as a pure state transition.

 A notification whose type starts with `webpack` is turned into a
 status (kind, colour, progress, message); the status element is
 created if there is none yet; the style patch computed for the status
 is merged onto the element's style; and the `data-webpack-status`
 attribute is set to the kind. Any other message changes nothing.
 */
module StatusBar {
  import opened Wrappers
  import opened Text
  import Colors
  import opened StatusStyle

  /** Namespace prefix of the dev server's notifications. */
  const Prefix: string := "webpack"

  /** Identifier of the status element when the host configures none. */
  const DefaultElemId: string := "__webpack_status_bar__"

  /** An already-decoded notification: its `type` tag and the `percent`
      and `msg` fields of its data, each possibly absent. */
  datatype Message = Message(eventType: Option<string>, percent: Option<int>, msg: Option<string>)

  /** The status element, abstracted to what the handler reads and writes. */
  datatype Element = Element(present: bool, id: string, style: Style, statusAttr: Option<string>)

  /** Host configuration. The identifier, the host element, the colour
      overrides and the style function are read once when the script
      loads; the touch-point count stands for what the browser reports
      and is taken as fixed over a run of messages. */
  datatype Config = Config(
    elemId: Option<string>,                    // element identifier
    hostElem: Option<Element>,                 // element supplied by the host
    colorOverrides: map<string, string>,       // colour table overrides and additions
    customStyle: Option<Status -> Style>,      // replacement for the default style function
    maxTouchPoints: int                        // touch capability reported by the browser
  )

  /** No element yet. */
  const Absent: Element := Element(false, "", map[], None)

  /** The configured identifier, or the default one when it is absent or empty. */
  function ElemId(cfg: Config): (id: string)
    ensures id != ""
    ensures cfg.elemId.Some? && cfg.elemId.value != "" ==> id == cfg.elemId.value
    ensures cfg.elemId.None? || cfg.elemId.value == "" ==> id == DefaultElemId
  {
    if cfg.elemId.Some? && cfg.elemId.value != "" then cfg.elemId.value else DefaultElemId
  }

  /** The host supplied an element of its own. */
  predicate HostSupplied(cfg: Config)
  {
    cfg.hostElem.Some? && cfg.hostElem.value.present
  }

  /** The element the handler starts from: the host's element if it
      supplied one, else what a lookup by identifier found, else none.
      `found` is the result of looking the configured identifier up in
      the document, so an element found there carries that identifier. */
  function InitialElement(cfg: Config, found: Option<Element>): (e: Element)
    requires found.Some? ==> found.value.id == ElemId(cfg)
    ensures HostSupplied(cfg) ==> e == cfg.hostElem.value
    ensures !HostSupplied(cfg) && found.Some? && found.value.present ==> e == found.value
    ensures !HostSupplied(cfg) && !(found.Some? && found.value.present) ==> e == Absent
    ensures e.present && !HostSupplied(cfg) ==> e.id == ElemId(cfg)
  {
    if cfg.hostElem.Some? && cfg.hostElem.value.present then cfg.hostElem.value
    else if found.Some? && found.value.present then found.value
    else Absent
  }

  /** The kind of a notification: the rest of its type after the
      `webpack` prefix, lower-cased; absent when the type is missing,
      empty or does not start with the prefix. */
  function Classify(eventType: Option<string>): (kind: Option<string>)
    ensures kind.Some? <==> eventType.Some? && eventType.value != "" && StartsWith(eventType.value, Prefix)
    ensures kind.Some? ==> kind.value == ToLower(eventType.value[|Prefix|..])
  {
    if eventType.Some? && eventType.value != "" && StartsWith(eventType.value, Prefix)
    then Some(ToLower(eventType.value[|Prefix|..]))
    else None
  }

  predicate Accepted(m: Message)
  {
    Classify(m.eventType).Some?
  }

  /** Every lower-case kind is recovered from the type that carries it. */
  lemma ClassifyRoundTrip(kind: string)
    requires IsLowerCase(kind)
    ensures Classify(Some(Prefix + kind)) == Some(kind)
  {
    assert (Prefix + kind)[..|Prefix|] == Prefix;
    assert (Prefix + kind)[|Prefix|..] == kind;
    ToLowerFixesLowerCase(kind);
  }

  /** Types that differ only in the case of the part after the prefix
      name the same kind. */
  lemma ClassifyIgnoresSuffixCase(a: string, b: string)
    requires ToLower(a) == ToLower(b)
    ensures Classify(Some(Prefix + a)) == Classify(Some(Prefix + b))
  {
    assert (Prefix + a)[..|Prefix|] == Prefix && (Prefix + a)[|Prefix|..] == a;
    assert (Prefix + b)[..|Prefix|] == Prefix && (Prefix + b)[|Prefix|..] == b;
  }

  /** The prefix is matched case-sensitively. */
  lemma PrefixIsCaseSensitive(rest: string)
    ensures Classify(Some("Webpack" + rest)).None?
  {
    assert ("Webpack" + rest)[0] == 'W';
  }

  /** The status of an accepted notification of kind `kind`. */
  function Derive(cfg: Config, kind: string, m: Message): (st: Status)
    ensures st.event == kind
    ensures kind == "progress" ==> st.progress == m.percent
    ensures kind != "progress" ==> st.progress == Some(100)
    ensures st.color == Colors.Resolve(Colors.Table(cfg.colorOverrides), kind)
    ensures m.msg.None? ==> st.message == ""
    ensures m.msg.Some? ==> st.message == m.msg.value
  {
    var progress := if kind == "progress" then m.percent else Some(100);
    var color := Colors.Resolve(Colors.Table(cfg.colorOverrides), kind);
    Status(kind, color, progress, m.msg.GetOr(""))
  }

  /** The style patch: the host's style function if it supplied one,
      otherwise the default one. */
  function Patch(cfg: Config, st: Status): (p: Style)
    ensures cfg.customStyle.Some? ==> p == cfg.customStyle.value(st)
    ensures cfg.customStyle.None? ==> p == DefaultStyle(st, cfg.maxTouchPoints) && p.Keys == StyleKeys
  {
    match cfg.customStyle
    case Some(f) => f(st)
    case None => DefaultStyle(st, cfg.maxTouchPoints)
  }

  /** Assigns every property of `patch` onto `style` (`Object.assign`). */
  function Merge(style: Style, patch: Style): (r: Style)
    ensures r.Keys == style.Keys + patch.Keys
    ensures forall k :: k in patch ==> r[k] == patch[k]
    ensures forall k :: k in style && k !in patch ==> r[k] == style[k]
  {
    style + patch
  }

  /** Merging the same patch twice is merging it once. */
  lemma MergeIdempotent(style: Style, patch: Style)
    ensures Merge(Merge(style, patch), patch) == Merge(style, patch)
  {
  }

  /** A later patch that sets every property of an earlier one erases it. */
  lemma MergeOverwrites(style: Style, p1: Style, p2: Style)
    requires p1.Keys <= p2.Keys
    ensures Merge(Merge(style, p1), p2) == Merge(style, p2)
  {
  }

  /** The element after lazy creation: an existing element is kept,
      otherwise a fresh one carrying the configured identifier. */
  function Ensure(cfg: Config, e: Element): (r: Element)
    ensures r.present
    ensures e.present ==> r == e
    ensures !e.present ==> r.id == ElemId(cfg) && r.style == map[] && r.statusAttr == None
  {
    if e.present then e else Element(true, ElemId(cfg), map[], None)
  }

  /** One run of the message listener. */
  function Step(cfg: Config, e: Element, m: Message): (r: Element)
    ensures !Accepted(m) ==> r == e
    ensures Accepted(m) ==> r.present && r.statusAttr == Classify(m.eventType)
    ensures e.present ==> r.id == e.id
    ensures Accepted(m) && !e.present ==> r.id == ElemId(cfg)
  {
    match Classify(m.eventType)
    case None => e
    case Some(kind) =>
      var st := Derive(cfg, kind, m);
      var target := Ensure(cfg, e);
      target.(style := Merge(target.style, Patch(cfg, st)), statusAttr := Some(kind))
  }

  /** An accepted notification of kind `kind` ensures the element exists,
      merges the patch for its status and tags the element with `kind`. */
  lemma StepAccepted(cfg: Config, e: Element, m: Message, kind: string)
    requires Classify(m.eventType) == Some(kind)
    ensures var target := Ensure(cfg, e);
            Step(cfg, e, m) == target.(style := Merge(target.style, Patch(cfg, Derive(cfg, kind, m))),
                                       statusAttr := Some(kind))
  {
  }

  /** An accepted notification sets every property of its patch and
      leaves every other property of an existing element as it was. */
  lemma StepMergesPatch(cfg: Config, e: Element, m: Message)
    requires Accepted(m)
    ensures var r := Step(cfg, e, m);
            var patch := Patch(cfg, Derive(cfg, Classify(m.eventType).value, m));
            && (forall k :: k in patch ==> k in r.style && r.style[k] == patch[k])
            && (e.present ==> forall k :: k in e.style && k !in patch ==> k in r.style && r.style[k] == e.style[k])
            && r.style.Keys == (if e.present then e.style.Keys else {}) + patch.Keys
  {
  }

  /** With the default style function an accepted notification paints
      the bar in the colour its kind resolves to in the host's table. */
  lemma StepColor(cfg: Config, e: Element, m: Message)
    requires cfg.customStyle.None? && Accepted(m)
    ensures var r := Step(cfg, e, m);
            var kind := Classify(m.eventType).value;
            && "backgroundColor" in r.style
            && r.style["backgroundColor"] == Colors.Resolve(Colors.Table(cfg.colorOverrides), kind)
  {
    StepAccepted(cfg, e, m, Classify(m.eventType).value);
  }

  /** With the default style function the bar's width, read back as a
      number of `vw`, is the payload's percent for a `progress`
      notification and 100 for every other kind; a `progress`
      notification without a percent gives `undefinedvw`. */
  lemma StepWidth(cfg: Config, e: Element, m: Message)
    requires cfg.customStyle.None? && Accepted(m)
    ensures var r := Step(cfg, e, m);
            var kind := Classify(m.eventType).value;
            && "width" in r.style
            && var w := r.style["width"];
            && |w| >= 3 && w[|w| - 2..] == "vw"
            && (kind != "progress" ==> IsNumeral(w[..|w| - 2]) && ParseInt(w[..|w| - 2]) == 100)
            && (kind == "progress" && m.percent.Some? ==>
                  IsNumeral(w[..|w| - 2]) && ParseInt(w[..|w| - 2]) == m.percent.value)
            && (kind == "progress" && m.percent.None? ==> w == "undefinedvw")
  {
    var kind := Classify(m.eventType).value;
    StepAccepted(cfg, e, m, kind);
    var st := Derive(cfg, kind, m);
    if st.progress.Some? {
      WidthRoundTrip(st.progress.value);
    }
  }

  /** Handling the same notification twice leaves the element as handling it once. */
  lemma StepIdempotent(cfg: Config, e: Element, m: Message)
    ensures Step(cfg, Step(cfg, e, m), m) == Step(cfg, e, m)
  {
    if Accepted(m) {
      var kind := Classify(m.eventType).value;
      var once := Step(cfg, e, m);
      StepAccepted(cfg, e, m, kind);
      StepAccepted(cfg, once, m, kind);
      MergeIdempotent(Ensure(cfg, e).style, Patch(cfg, Derive(cfg, kind, m)));
    }
  }

  /** Of two accepted notifications, the second one's kind is the one shown. */
  lemma LastWriterWins(cfg: Config, e: Element, a: Message, b: Message)
    requires Accepted(a) && Accepted(b)
    ensures Step(cfg, Step(cfg, e, a), b).statusAttr == Classify(b.eventType)
  {
  }

  // ---------------------------------------------------------------------
  // Sequences of notifications, handled in delivery order
  // ---------------------------------------------------------------------

  /** The element after handling `msgs` in order, starting from `e`. */
  function Run(cfg: Config, e: Element, msgs: seq<Message>): (r: Element)
    ensures LastAccepted(msgs).None? ==> r == e
    ensures LastAccepted(msgs).Some? ==> r.present && r.statusAttr.Some?
    ensures e.present ==> r.present && r.id == e.id
  {
    if msgs == [] then e else Step(cfg, Run(cfg, e, msgs[..|msgs| - 1]), msgs[|msgs| - 1])
  }

  /** Handling one more notification is one more step. */
  lemma RunSnoc(cfg: Config, e: Element, msgs: seq<Message>, m: Message)
    ensures Run(cfg, e, msgs + [m]) == Step(cfg, Run(cfg, e, msgs), m)
  {
    assert (msgs + [m])[..|msgs|] == msgs;
  }

  /** Position of the last accepted notification of `msgs`, if any. */
  function LastAccepted(msgs: seq<Message>): (r: Option<nat>)
    ensures r.Some? ==> r.value < |msgs| && Accepted(msgs[r.value])
    ensures r.Some? ==> forall j :: r.value < j < |msgs| ==> !Accepted(msgs[j])
    ensures r.None? ==> forall j :: 0 <= j < |msgs| ==> !Accepted(msgs[j])
  {
    if msgs == [] then None
    else if Accepted(msgs[|msgs| - 1]) then Some(|msgs| - 1)
    else LastAccepted(msgs[..|msgs| - 1])
  }

  /** The attribute shows the kind of the last accepted notification,
      and is untouched when none was accepted. */
  lemma {:induction false} RunStatusAttr(cfg: Config, e: Element, msgs: seq<Message>)
    ensures Run(cfg, e, msgs).statusAttr ==
              match LastAccepted(msgs)
              case Some(i) => Classify(msgs[i].eventType)
              case None => e.statusAttr
  {
    if msgs != [] {
      RunStatusAttr(cfg, e, msgs[..|msgs| - 1]);
    }
  }

  /** The element is created at most once: an element that exists keeps
      its identity, and a created one carries the configured identifier. */
  lemma {:induction false} RunCreatesOnce(cfg: Config, e: Element, msgs: seq<Message>)
    ensures var r := Run(cfg, e, msgs);
            && r.present == (e.present || LastAccepted(msgs).Some?)
            && r.id == (if !e.present && LastAccepted(msgs).Some? then ElemId(cfg) else e.id)
  {
    if msgs != [] {
      RunCreatesOnce(cfg, e, msgs[..|msgs| - 1]);
    }
  }

  /** Starting from the initial element, a host-supplied element is never
      replaced, and an element the handler uses otherwise, whether found
      by identifier or created, carries the configured identifier. */
  lemma RunFromInitial(cfg: Config, found: Option<Element>, msgs: seq<Message>)
    requires found.Some? ==> found.value.id == ElemId(cfg)
    ensures var r := Run(cfg, InitialElement(cfg, found), msgs);
            && (HostSupplied(cfg) ==> r.present && r.id == cfg.hostElem.value.id)
            && (!HostSupplied(cfg) && r.present ==> r.id == ElemId(cfg))
            && (r.present <==> HostSupplied(cfg) || (found.Some? && found.value.present) || LastAccepted(msgs).Some?)
  {
    RunCreatesOnce(cfg, InitialElement(cfg, found), msgs);
  }

  /** The style the element starts from before any patch is merged. */
  function BaseStyle(e: Element): Style
  {
    if e.present then e.style else map[]
  }

  /** The style after one accepted notification under the default style function. */
  lemma StepStyle(cfg: Config, e: Element, m: Message)
    requires cfg.customStyle.None? && Accepted(m)
    ensures Step(cfg, e, m).style ==
              Merge(BaseStyle(e), DefaultStyle(Derive(cfg, Classify(m.eventType).value, m), cfg.maxTouchPoints))
  {
    StepAccepted(cfg, e, m, Classify(m.eventType).value);
  }

  /** With the default style function the element's style reflects only
      the last accepted notification: every earlier patch is fully
      overwritten, and properties the handler never sets are kept. */
  lemma {:induction false} RunStyleIsLastPatch(cfg: Config, e: Element, msgs: seq<Message>)
    requires cfg.customStyle.None?
    requires LastAccepted(msgs).Some?
    ensures var i := LastAccepted(msgs).value;
            var st := Derive(cfg, Classify(msgs[i].eventType).value, msgs[i]);
            Run(cfg, e, msgs).style == Merge(BaseStyle(e), DefaultStyle(st, cfg.maxTouchPoints))
  {
    var n := |msgs|;
    var front := msgs[..n - 1];
    var last := msgs[n - 1];
    var i := LastAccepted(msgs).value;
    assert Run(cfg, e, msgs) == Step(cfg, Run(cfg, e, front), last);
    if i < n - 1 {
      assert LastAccepted(front) == Some(i);
      assert front[i] == msgs[i];
      RunStyleIsLastPatch(cfg, e, front);
    } else {
      var prev := Run(cfg, e, front);
      StepStyle(cfg, prev, last);
      match LastAccepted(front)
      case None =>
      case Some(j) =>
        RunStyleIsLastPatch(cfg, e, front);
        RunCreatesOnce(cfg, e, front);
        assert BaseStyle(prev) == prev.style;
        var stj := Derive(cfg, Classify(front[j].eventType).value, front[j]);
        var st := Derive(cfg, Classify(last.eventType).value, last);
        MergeOverwrites(BaseStyle(e), DefaultStyle(stj, cfg.maxTouchPoints), DefaultStyle(st, cfg.maxTouchPoints));
    }
  }

  /** The accepted notifications of `msgs`, in order. */
  function Relevant(msgs: seq<Message>): (r: seq<Message>)
    ensures |r| <= |msgs|
    ensures forall m :: m in r <==> m in msgs && Accepted(m)
  {
    if msgs == [] then []
    else
      var last := msgs[|msgs| - 1];
      Relevant(msgs[..|msgs| - 1]) + (if Accepted(last) then [last] else [])
  }

  /** Dropping the messages the classifier rejects changes nothing. */
  lemma {:induction false} RunIgnoresUnrelated(cfg: Config, e: Element, msgs: seq<Message>)
    ensures Run(cfg, e, msgs) == Run(cfg, e, Relevant(msgs))
  {
    if msgs != [] {
      var front := msgs[..|msgs| - 1];
      var last := msgs[|msgs| - 1];
      RunIgnoresUnrelated(cfg, e, front);
      assert Run(cfg, e, msgs) == Step(cfg, Run(cfg, e, front), last);
      if Accepted(last) {
        assert Relevant(msgs) == Relevant(front) + [last];
        RunSnoc(cfg, e, Relevant(front), last);
      } else {
        assert Relevant(msgs) == Relevant(front);
      }
    }
  }

  /** Delivering the last notification again changes nothing. */
  lemma RunRepeatLast(cfg: Config, e: Element, msgs: seq<Message>, m: Message)
    ensures Run(cfg, e, msgs + [m, m]) == Run(cfg, e, msgs + [m])
  {
    assert msgs + [m, m] == (msgs + [m]) + [m];
    RunSnoc(cfg, e, msgs + [m], m);
    RunSnoc(cfg, e, msgs, m);
    StepIdempotent(cfg, Run(cfg, e, msgs), m);
  }
}
