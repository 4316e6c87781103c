/**
 Concrete runs of the message listener on the notifications the dev
 server sends, under the default configuration and under a host
 colour override.
 */
module Scenarios {
  import opened Wrappers
  import opened Text
  import opened StatusStyle
  import opened StatusBar
  import Colors

  /** No host configuration and a device without touch input. */
  const Plain: Config := Config(None, None, map[], None, 0)

  // Facts about the literals used below, each proved on its own.

  lemma ClassifyProgress()
    ensures Classify(Some("webpackprogress")) == Some("progress")
  {
    assert IsLowerCase("progress");
    assert Prefix + "progress" == "webpackprogress";
    ClassifyRoundTrip("progress");
  }

  lemma ClassifyOk()
    ensures Classify(Some("webpackok")) == Some("ok")
  {
    assert IsLowerCase("ok");
    assert Prefix + "ok" == "webpackok";
    ClassifyRoundTrip("ok");
  }

  lemma ClassifyBogus()
    ensures Classify(Some("webpackbogus")) == Some("bogus")
  {
    assert IsLowerCase("bogus");
    assert Prefix + "bogus" == "webpackbogus";
    ClassifyRoundTrip("bogus");
  }

  lemma Width42()
    ensures Width(Some(42)) == "42vw"
  {
    assert NatToString(42) == "42" by {
      assert NatToString(4) == "4";
    }
  }

  lemma Width100()
    ensures Width(Some(100)) == "100vw"
  {
    assert NatToString(100) == "100" by {
      assert NatToString(10) == "10" by {
        assert NatToString(1) == "1";
      }
    }
  }

  lemma BuiltInColors()
    ensures Colors.Resolve(Colors.Table(map[]), "progress") == "#39d1cf"
    ensures Colors.Resolve(Colors.Table(map[]), "ok") == "#39d183"
    ensures Colors.Resolve(Colors.Table(map[]), "bogus") == "#a081ea"
  {
    var t := Colors.Table(map[]);
    assert t == Colors.DefaultColors;
    assert "bogus" !in t;
  }

  /** A progress notification: the bar is 42vw wide, aqua, and tagged `progress`. */
  lemma ProgressScenario()
    ensures var r := Step(Plain, Absent, Message(Some("webpackprogress"), Some(42), None));
            && r.present && r.id == "__webpack_status_bar__"
            && r.statusAttr == Some("progress")
            && StyleKeys <= r.style.Keys
            && r.style["width"] == "42vw"
            && r.style["backgroundColor"] == "#39d1cf"
            && r.style["position"] == "fixed"
  {
    var m := Message(Some("webpackprogress"), Some(42), None);
    ClassifyProgress();
    BuiltInColors();
    Width42();
    StepAccepted(Plain, Absent, m, "progress");
  }

  /** A progress notification without a percentage: the width is `undefinedvw`. */
  lemma ProgressWithoutPercentScenario()
    ensures var r := Step(Plain, Absent, Message(Some("webpackprogress"), None, None));
            "width" in r.style && r.style["width"] == "undefinedvw"
  {
    ClassifyProgress();
    StepAccepted(Plain, Absent, Message(Some("webpackprogress"), None, None), "progress");
  }

  /** An `ok` notification takes the built-in green and spans the full width. */
  lemma OkScenario()
    ensures var r := Step(Plain, Absent, Message(Some("webpackok"), None, None));
            && r.statusAttr == Some("ok")
            && StyleKeys <= r.style.Keys
            && r.style["backgroundColor"] == "#39d183"
            && r.style["width"] == "100vw"
  {
    ClassifyOk();
    BuiltInColors();
    Width100();
    StepAccepted(Plain, Absent, Message(Some("webpackok"), None, None), "ok");
  }

  /** When the host overrides the colour of `ok`, an `ok` notification takes the host's colour. */
  lemma OkOverriddenScenario(host: string)
    requires host != ""
    ensures var cfg := Plain.(colorOverrides := map["ok" := host]);
            var r := Step(cfg, Absent, Message(Some("webpackok"), None, None));
            "backgroundColor" in r.style && r.style["backgroundColor"] == host
  {
    var cfg := Plain.(colorOverrides := map["ok" := host]);
    ClassifyOk();
    Colors.OverrideWins(map["ok" := host], "ok");
    StepAccepted(cfg, Absent, Message(Some("webpackok"), None, None), "ok");
  }

  /** A message outside the namespace changes nothing at all. */
  lemma UnrelatedScenario(e: Element)
    ensures Step(Plain, e, Message(Some("unrelatedEvent"), None, None)) == e
  {
    assert "unrelatedEvent"[..7] != Prefix by {
      assert "unrelatedEvent"[0] == 'u';
    }
  }

  /** An unknown kind is shown by name but coloured as `invalid`. */
  lemma BogusScenario()
    ensures var r := Step(Plain, Absent, Message(Some("webpackbogus"), None, None));
            r.statusAttr == Some("bogus") && "backgroundColor" in r.style && r.style["backgroundColor"] == "#a081ea"
  {
    ClassifyBogus();
    BuiltInColors();
    StepAccepted(Plain, Absent, Message(Some("webpackbogus"), None, None), "bogus");
  }

  /** The suffix is lower-cased: `webpackOK` is an `ok` notification. */
  lemma UpperCaseSuffixScenario()
    ensures Classify(Some("webpackOK")) == Some("ok")
  {
    assert "webpackOK"[..7] == Prefix;
    assert "webpackOK"[7..] == "OK";
    assert ToLower("OK") == "ok" by {
      assert ToLower("OK")[0] == 'o' && ToLower("OK")[1] == 'k';
    }
  }

  /** On a touch device the bar is positioned `absolute`. */
  lemma TouchScenario()
    ensures var r := Step(Plain.(maxTouchPoints := 5), Absent, Message(Some("webpackok"), None, None));
            "position" in r.style && r.style["position"] == "absolute"
  {
    ClassifyOk();
    StepAccepted(Plain.(maxTouchPoints := 5), Absent, Message(Some("webpackok"), None, None), "ok");
  }

  /** A host-supplied element is reused, not replaced: its identifier and
      the properties the handler does not set survive. */
  lemma HostElementScenario(el: Element)
    requires el.present && "color" in el.style
    ensures var cfg := Plain.(hostElem := Some(el));
            var r := Step(cfg, InitialElement(cfg, None), Message(Some("webpackok"), None, None));
            r.id == el.id && "color" in r.style && r.style["color"] == el.style["color"] && r.statusAttr == Some("ok")
  {
    var cfg := Plain.(hostElem := Some(el));
    ClassifyOk();
    assert "color" !in StyleKeys;
    StepAccepted(cfg, el, Message(Some("webpackok"), None, None), "ok");
  }
}
