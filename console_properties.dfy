/** What the console writer promises about the lines it renders: the
    uncoloured line is the coloured one with its escape sequences removed, the
    header and pairs follow the layout of the writer's format strings, and the
    severities get their labels and colours from a fixed table. */
module ConsoleProperties {
  import opened Wrappers
  import opened Json
  import opened StringOrder
  import opened Console

  /** The text with every escape sequence removed, a sequence running from an
      ESC byte up to and including the next `m` (the SGR form `ESC[<code>m`). */
  function StripEscapes(s: string): string
    decreases |s|
  {
    if s == [] then []
    else if s[0] == Esc then StripEscapes(SkipPastM(s[1..]))
    else [s[0]] + StripEscapes(s[1..])
  }

  /** What follows the first `m` of `s` (nothing when there is none). */
  function SkipPastM(s: string): (r: string)
    ensures |r| <= |s|
  {
    if s == [] then []
    else if s[0] == 'm' then s[1..]
    else SkipPastM(s[1..])
  }

  lemma {:induction false} SkipPastParameters(d: string, b: string)
    requires 'm' !in d
    ensures SkipPastM(d + "m" + b) == b
  {
    if d == [] {
      assert d + "m" + b == ['m'] + b;
    } else {
      assert (d + "m" + b)[1..] == d[1..] + "m" + b;
      SkipPastParameters(d[1..], b);
    }
  }

  /** Text without an escape byte passes through unchanged. */
  lemma {:induction false} StripPlain(a: string, b: string)
    requires Esc !in a
    ensures StripEscapes(a + b) == a + StripEscapes(b)
  {
    if a != [] {
      assert a[0] in a;
      assert (a + b)[0] == a[0] && (a + b)[1..] == a[1..] + b;
      assert forall c :: c in a[1..] ==> c in a;
      StripPlain(a[1..], b);
      calc {
        StripEscapes(a + b);
        [a[0]] + StripEscapes(a[1..] + b);
        [a[0]] + (a[1..] + StripEscapes(b));
        { assert a == [a[0]] + a[1..]; }
        a + StripEscapes(b);
      }
    } else {
      assert a + b == b;
    }
  }

  /** A colour sequence is removed entirely. */
  lemma StripSgr(code: nat, b: string)
    ensures StripEscapes(Sgr(code) + b) == StripEscapes(b)
  {
    var digits := "[" + Decimal(code);
    assert 'm' !in digits;
    assert [Esc, '['] == [Esc] + "[";
    AppendAssociative([Esc], "[", Decimal(code));
    AppendAssociative([Esc], digits, "m");
    AppendAssociative([Esc], digits + "m", b);
    SkipPastParameters(digits, b);
  }

  /** `colorize(s, c, true)` loses its wrapper when stripped. */
  lemma StripColorized(text: string, color: nat, b: string)
    requires Esc !in text
    ensures StripEscapes(Colorize(text, color, true) + b) == text + StripEscapes(b)
  {
    AppendAssociative(Sgr(color) + text, Sgr(Reset), b);
    AppendAssociative(Sgr(color), text, Sgr(Reset) + b);
    StripSgr(color, text + (Sgr(Reset) + b));
    StripPlain(text, Sgr(Reset) + b);
    StripSgr(Reset, b);
  }

  /** One span, stripped, leaves its plain rendering. */
  lemma StripPiece(p: Piece, b: string)
    requires Esc !in PaintOne(p, false)
    ensures StripEscapes(PaintOne(p, true) + b) == PaintOne(p, false) + StripEscapes(b)
  {
    match p
    case Plain(t) =>
      StripPlain(t, b);
    case Painted(t, c) =>
      StripColorized(t, c, b);
  }

  /** Stripping the coloured spans leaves their plain rendering. */
  lemma {:induction false} StripPaint(ps: seq<Piece>, b: string)
    requires Esc !in Paint(ps, false)
    ensures StripEscapes(Paint(ps, true) + b) == Paint(ps, false) + StripEscapes(b)
    decreases |ps|
  {
    if ps == [] {
      assert Paint(ps, true) + b == b;
    } else {
      var init, last := ps[..|ps| - 1], ps[|ps| - 1];
      var tail := PaintOne(last, true) + b;
      assert Esc !in Paint(init, false) && Esc !in PaintOne(last, false) by {
        assert Paint(ps, false) == Paint(init, false) + PaintOne(last, false);
      }
      AppendAssociative(Paint(init, true), PaintOne(last, true), b);
      StripPaint(init, tail);
      StripPiece(last, b);
      AppendAssociative(Paint(init, false), PaintOne(last, false), StripEscapes(b));
    }
  }

  /** Uncoloured painting depends on the texts of the spans only, not their colours. */
  lemma {:induction false} PlainPaintSameTexts(ps: seq<Piece>, qs: seq<Piece>)
    requires |ps| == |qs|
    requires forall i :: 0 <= i < |ps| ==> ps[i].text == qs[i].text
    ensures Paint(ps, false) == Paint(qs, false)
    decreases |ps|
  {
    if ps != [] {
      PlainPaintSameTexts(ps[..|ps| - 1], qs[..|qs| - 1]);
    }
  }

  /** The two headers of a record differ only in the level's colour. */
  lemma HeaderTexts(e: Event, l1: LevelView, l2: LevelView, lib: Library)
    requires l1.text == l2.text
    ensures Paint(Header(e, l1, lib), false) == Paint(Header(e, l2, lib), false)
  {
    var h1, h2 := Header(e, l1, lib), Header(e, l2, lib);
    assert |h1| == |h2| && forall i :: 0 <= i < |h1| ==> h1[i].text == h2[i].text;
    PlainPaintSameTexts(h1, h2);
  }

  /** The level colour is invisible in the uncoloured rendering of a record's spans. */
  lemma PlainIgnoresLevelColor(e: Event, lib: Library)
    requires Render(e, true, lib).Some?
    ensures ResolveLevel(e, false).Some?
    ensures
      var spans := Header(e, ResolveLevel(e, false).value, lib) + Pairs(SortedKeys(FieldNames(e)), e, lib) + [Plain("\n")];
      Render(e, false, lib) == Some(Paint(spans, true)) &&
      Render(e, true, lib) == Some(Paint(spans, false))
  {
    var plain, colored := ResolveLevel(e, true).value, ResolveLevel(e, false).value;
    var pairs := Pairs(SortedKeys(FieldNames(e)), e, lib);
    var hp, hc := Header(e, plain, lib), Header(e, colored, lib);
    RenderUnfold(e, true, lib, plain);
    RenderUnfold(e, false, lib, colored);
    LineAssembly(hp, pairs, false);
    LineAssembly(hc, pairs, false);
    HeaderTexts(e, plain, colored, lib);
  }

  /** The line written with `NoColor` set is the coloured line with every
      escape sequence removed, as long as the record's own texts hold no ESC byte. */
  lemma NoColorIsStripped(e: Event, lib: Library)
    requires Render(e, true, lib).Some?
    requires Esc !in Render(e, true, lib).value
    ensures Render(e, false, lib).Some?
    ensures StripEscapes(Render(e, false, lib).value) == Render(e, true, lib).value
  {
    PlainIgnoresLevelColor(e, lib);
    var spans := Header(e, ResolveLevel(e, false).value, lib) + Pairs(SortedKeys(FieldNames(e)), e, lib) + [Plain("\n")];
    StripPaint(spans, "");
    assert Paint(spans, true) + "" == Paint(spans, true);
    assert Paint(spans, false) + "" == Paint(spans, false);
  }

  /** The uncoloured ` key=value` pairs, written out as text. */
  function PlainPairs(keys: seq<string>, e: Event, lib: Library): string
    requires forall k :: k in keys ==> k in e
  {
    if keys == [] then ""
    else
      var k := keys[|keys| - 1];
      PlainPairs(keys[..|keys| - 1], e, lib) + " " + k + "=" + FormatValue(e[k], lib)
  }

  lemma {:induction false} PlainPairsArePairs(keys: seq<string>, e: Event, lib: Library)
    requires forall k :: k in keys ==> k in e
    ensures Paint(Pairs(keys, e, lib), false) == PlainPairs(keys, e, lib)
    decreases |keys|
  {
    if keys != [] {
      var init, k := keys[..|keys| - 1], keys[|keys| - 1];
      PlainPairsArePairs(init, e, lib);
      PaintAppend(Pairs(init, e, lib), Pair(k, e[k], lib), false);
      PaintPair(k, e[k], lib, false);
    }
  }

  /** The uncoloured line is the header's text, the pairs' text and a newline. */
  lemma PlainLine(e: Event, lib: Library)
    requires Render(e, true, lib).Some?
    ensures Render(e, true, lib).value
         == Paint(Header(e, ResolveLevel(e, true).value, lib), false)
            + PlainPairs(SortedKeys(FieldNames(e)), e, lib) + "\n"
  {
    var level := ResolveLevel(e, true).value;
    var keys := SortedKeys(FieldNames(e));
    RenderUnfold(e, true, lib, level);
    LineAssembly(Header(e, level, lib), Pairs(keys, e, lib), false);
    PlainPairsArePairs(keys, e, lib);
  }

  lemma AppendAssociative(a: string, b: string, c: string)
    ensures a + b + c == a + (b + c)
  {
  }

  /** The header with a caller, as the format string `"%s |%s| %s |%s "` lays
      it out: the time in dark grey, the label in its level colour, the caller
      and the message in the reset colour, and one trailing space. */
  lemma HeaderWithCaller(e: Event, level: LevelView, lib: Library, enabled: bool)
    requires CallerField in e
    ensures Paint(Header(e, level, lib), enabled)
         == Colorize(FormatTime(Get(e, TimeField), lib), DarkGray, enabled) + " |"
            + Colorize(level.text, level.color, enabled) + "| "
            + Colorize(Show(e[CallerField], lib), Reset, enabled) + " |"
            + Colorize(Show(Get(e, MessageField), lib), Reset, enabled) + " "
  {
    PaintEight(Painted(FormatTime(Get(e, TimeField), lib), DarkGray), Plain(" |"),
               Painted(level.text, level.color), Plain("| "),
               Painted(Show(e[CallerField], lib), Reset), Plain(" |"),
               Painted(Show(Get(e, MessageField), lib), Reset), Plain(" "), enabled);
  }

  /** The header without a caller, as the format string `"%s |%s| %s"` lays it
      out: the time in dark grey, the label in its level colour, the message in
      the reset colour, and no trailing space. */
  lemma HeaderWithoutCaller(e: Event, level: LevelView, lib: Library, enabled: bool)
    requires CallerField !in e
    ensures Paint(Header(e, level, lib), enabled)
         == Colorize(FormatTime(Get(e, TimeField), lib), DarkGray, enabled) + " |"
            + Colorize(level.text, level.color, enabled) + "| "
            + Colorize(Show(Get(e, MessageField), lib), Reset, enabled)
  {
    PaintFive(Painted(FormatTime(Get(e, TimeField), lib), DarkGray), Plain(" |"),
              Painted(level.text, level.color), Plain("| "),
              Painted(Show(Get(e, MessageField), lib), Reset), enabled);
  }

  /** The uncoloured line has the layout of the format strings of `Write`:
      `T |L| C |M ` followed by
      the pairs when a caller is present (so one space more before the first
      pair), `T |L| M` followed by the pairs otherwise; each pair begins with
      its own space and the line ends in one newline. */
  lemma PlainLayout(e: Event, lib: Library)
    requires Render(e, true, lib).Some?
    ensures
      var line := Render(e, true, lib).value;
      var t := FormatTime(Get(e, TimeField), lib);
      var l := ResolveLevel(e, true).value.text;
      var m := Show(Get(e, MessageField), lib);
      var rest := PlainPairs(SortedKeys(FieldNames(e)), e, lib) + "\n";
      if CallerField in e then
        line == t + " |" + l + "| " + Show(e[CallerField], lib) + " |" + m + " " + rest
      else
        line == t + " |" + l + "| " + m + rest
  {
    var level := ResolveLevel(e, true).value;
    var pairs := PlainPairs(SortedKeys(FieldNames(e)), e, lib);
    PlainLine(e, lib);
    AppendAssociative(Paint(Header(e, level, lib), false), pairs, "\n");
    if CallerField in e {
      HeaderWithCaller(e, level, lib, false);
    } else {
      HeaderWithoutCaller(e, level, lib, false);
    }
  }

  /** The label and colour zerolog's six severities get, as a table. */
  function SeverityStyle(level: string): (string, nat)
  {
    if level == "debug" then ("DEBU", Magenta)
    else if level == "info" then ("INFO", Green)
    else if level == "warn" then ("WARN", Yellow)
    else if level == "error" then ("ERRO", Red)
    else if level == "fatal" then ("FATA", Red)
    else ("PANI", Red)
  }

  /** Each known severity shows as its upper-cased first four letters, in its
      colour unless colour is off. */
  lemma SeverityLevels(e: Event, noColor: bool)
    requires HasStringLevel(e) && e[LevelField].text in KnownLevels
    ensures
      var style := SeverityStyle(e[LevelField].text);
      ResolveLevel(e, noColor) == Some(LevelView(style.0, if noColor then Reset else style.1))
  {
    var l := e[LevelField].text;
    var upper := ToUpper(l);
    if l == "debug" {
      assert upper[..4] == "DEBU";
    } else if l == "info" {
      assert upper[..4] == "INFO";
    } else if l == "warn" {
      assert upper[..4] == "WARN";
    } else if l == "error" {
      assert upper[..4] == "ERRO";
    } else if l == "fatal" {
      assert upper[..4] == "FATA";
    } else {
      assert upper[..4] == "PANI";
    }
  }

  /** The record `{"level":"error","time":1700000000,"message":"boom","code":42}`
      without colour, with the clock at UTC. */
  lemma ErrorRecordExample(lib: Library)
    requires lib.int64("1700000000") == 1700000000
    requires lib.rfc3339(1700000000) == "2023-11-14T22:13:20Z"
    ensures
      var e := map["level" := Str("error"), "time" := Num("1700000000"),
                   "message" := Str("boom"), "code" := Num("42")];
      Render(e, true, lib) == Some("2023-11-14T22:13:20Z |ERRO| boom code=42\n")
  {
    var e := map["level" := Str("error"), "time" := Num("1700000000"),
                 "message" := Str("boom"), "code" := Num("42")];
    assert e.Keys == {"level", "time", "message", "code"};
    assert FieldNames(e) == {"code"};
    SortedSingleton("code");
    SeverityLevels(e, true);
    PlainPairsOfOne("code", e, lib);
    assert ResolveLevel(e, true).value.text == "ERRO";
    assert CallerField !in e;
    assert FormatTime(Get(e, TimeField), lib) == "2023-11-14T22:13:20Z";
    assert Show(Get(e, MessageField), lib) == "boom";
    PlainLayout(e, lib);
    ErrorRecordText();
  }

  /** With a caller the message is followed by a space, and the first pair
      brings its own: two spaces separate them. */
  lemma CallerRecordExample(lib: Library)
    ensures
      var e := map["level" := Str("info"), "caller" := Str("main.go:10"),
                   "message" := Str("hi"), "n" := Num("1")];
      Render(e, true, lib) == Some("<nil> |INFO| main.go:10 |hi  n=1\n")
  {
    var e := map["level" := Str("info"), "caller" := Str("main.go:10"),
                 "message" := Str("hi"), "n" := Num("1")];
    assert e.Keys == {"level", "caller", "message", "n"};
    assert FieldNames(e) == {"n"};
    SortedSingleton("n");
    SeverityLevels(e, true);
    PlainPairsOfOne("n", e, lib);
    assert ResolveLevel(e, true).value.text == "INFO";
    assert CallerField in e;
    assert FormatTime(Get(e, TimeField), lib) == "<nil>";
    assert Show(e[CallerField], lib) == "main.go:10";
    assert Show(Get(e, MessageField), lib) == "hi";
    PlainLayout(e, lib);
    CallerRecordText();
  }

  /** The pairs of a single key: a space, the key, `=` and its value. */
  lemma PlainPairsOfOne(k: string, e: Event, lib: Library)
    requires k in e
    ensures PlainPairs([k], e, lib) == " " + k + "=" + FormatValue(e[k], lib)
  {
    assert [k][..0] == [];
  }

  /** A single key sorts to itself. */
  lemma SortedSingleton(k: string)
    ensures SortedKeys({k}) == [k]
  {
    var xs := SortedKeys({k});
    assert xs[0] in {k};
  }

  lemma ErrorRecordText()
    ensures "2023-11-14T22:13:20Z" + " |" + "ERRO" + "| " + "boom" + (" " + "code" + "=" + "42" + "\n")
         == "2023-11-14T22:13:20Z |ERRO| boom code=42\n"
  {
  }

  lemma CallerRecordText()
    ensures "<nil>" + " |" + "INFO" + "| " + "main.go:10" + " |" + "hi" + " " + (" " + "n" + "=" + "1" + "\n")
         == "<nil> |INFO| main.go:10 |hi  n=1\n"
  {
  }
}
