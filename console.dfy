/** The console writer of package consoleEx: it turns one JSON log record into
    one human-readable, optionally ANSI-coloured text line. */
module Console {
  import opened Wrappers
  import opened Json
  import opened StringOrder

  // Colour codes of the SGR escape sequences the writer emits.
  const Reset: nat := 0
  const Bold: nat := 1
  const Red: nat := 31
  const Green: nat := 32
  const Yellow: nat := 33
  const Blue: nat := 34
  const Magenta: nat := 35
  const Cyan: nat := 36
  const Gray: nat := 37
  const DarkGray: nat := 90

  // zerolog's default names of the reserved fields.
  const LevelField: string := "level"
  const TimeField: string := "time"
  const MessageField: string := "message"
  const CallerField: string := "caller"

  const Reserved: set<string> := {LevelField, TimeField, MessageField, CallerField}

  /** The escape byte that starts every colour sequence. */
  const Esc: char := 27 as char

  /** The Go library routines the writer calls, whose own behaviour is not part
      of this model. */
  datatype Library = Library(
    decode: string -> Result<Event, string>,  // json.Decoder.Decode with UseNumber
    quote: string -> string,                  // strconv.Quote
    marshal: Value -> Result<string, string>, // json.Marshal; an error as its %v text
    showComposite: Value -> string,           // fmt's %v of an array or object
    int64: string -> int,                     // json.Number.Int64, its error dropped
    rfc3339: int -> string)                   // time.Unix(u, 0).Format(time.RFC3339)

  /** The input bytes handed to the decoder: unchanged. */
  function DecodeIfBinaryToBytes(p: string): (r: string)
    ensures r == p
  {
    p
  }

  /** The severity names zerolog writes. */
  const KnownLevels: set<string> := {"debug", "info", "warn", "error", "fatal", "panic"}

  /** The colour of a level label. */
  function LevelColor(level: string): (c: nat)
    ensures c != Reset <==> level in KnownLevels
    ensures c == Red <==> level in {"error", "fatal", "panic"}
    ensures c in {Reset, Red, Green, Yellow, Magenta}
  {
    if level == "debug" then Magenta
    else if level == "info" then Green
    else if level == "warn" then Yellow
    else if level == "error" || level == "fatal" || level == "panic" then Red
    else Reset
  }

  /** The number a string of decimal digits spells. */
  function DigitsValue(s: string): nat
    requires forall i :: 0 <= i < |s| ==> '0' <= s[i] <= '9'
  {
    if s == [] then 0 else DigitsValue(s[..|s| - 1]) * 10 + (s[|s| - 1] as int - '0' as int)
  }

  /** The decimal digits of `n`, as `%d` prints them: no leading zero, and
      they spell `n`. */
  function Decimal(n: nat): (r: string)
    ensures |r| > 0
    ensures forall i :: 0 <= i < |r| ==> '0' <= r[i] <= '9'
    ensures r[0] == '0' ==> r == "0"
    ensures DigitsValue(r) == n
  {
    if n < 10 then ["0123456789"[n]]
    else
      var r := Decimal(n / 10) + ["0123456789"[n % 10]];
      assert r[..|r| - 1] == Decimal(n / 10);
      r
  }

  /** The SGR escape sequence that selects colour `code`: ESC, `[`, the
      decimal digits of `code` and `m`. */
  function Sgr(code: nat): (r: string)
    ensures |r| >= 4 && r[0] == Esc && r[1] == '[' && r[|r| - 1] == 'm'
    ensures forall i :: 2 <= i < |r| - 1 ==> '0' <= r[i] <= '9'
    ensures DigitsValue(r[2..|r| - 1]) == code
  {
    var r := [Esc, '['] + Decimal(code) + "m";
    assert r[2..|r| - 1] == Decimal(code);
    r
  }

  /** The sequence that ends every coloured span. */
  const ResetSequence: string := [Esc, '[', '0', 'm']

  /** `colorize`: the text wrapped in its colour and a reset, or plain. */
  function Colorize(text: string, color: nat, enabled: bool): (r: string)
    ensures !enabled ==> r == text
    ensures enabled ==> r == Sgr(color) + text + ResetSequence
  {
    if !enabled then text
    else
      assert Sgr(Reset) == ResetSequence;
      Sgr(color) + text + Sgr(Reset)
  }

  /** fmt's `%v` of a decoded value; a nil interface (absent or null) is `<nil>`. */
  function Show(v: Value, lib: Library): (r: string)
    ensures v.Null? ==> r == "<nil>"
    ensures v.Bool? ==> r == (if v.b then "true" else "false")
    ensures v.Str? ==> r == v.text
    ensures v.Num? ==> r == v.literal
    ensures v.Arr? || v.Obj? ==> r == lib.showComposite(v)
  {
    match v
    case Str(s) => s
    case Num(t) => t
    case Bool(b) => if b then "true" else "false"
    case Null => "<nil>"
    case _ => lib.showComposite(v)
  }

  /** `formatTime`: a string time verbatim, a number as the RFC 3339 form of
      that many seconds since the Unix epoch, anything else `<nil>`. */
  function FormatTime(t: Value, lib: Library): (r: string)
    ensures t.Str? ==> r == t.text
    ensures t.Num? ==> r == lib.rfc3339(lib.int64(t.literal))
    ensures !t.Str? && !t.Num? ==> r == "<nil>"
  {
    match t
    case Str(s) => s
    case Num(n) => lib.rfc3339(lib.int64(n))
    case _ => "<nil>"
  }

  /** A byte that cannot appear in an unquoted value: a control byte, a byte
      outside ASCII, a space, a backslash or a double quote. */
  predicate QuoteByte(c: char)
  {
    (c as int) < 0x20 || (c as int) > 0x7e || c == ' ' || c == '\\' || c == '"'
  }

  /** Some byte of `s` forces quoting. */
  predicate NeedsQuoting(s: string)
  {
    exists i :: 0 <= i < |s| && QuoteByte(s[i])
  }

  /** Every byte of `s` is printable ASCII other than space, backslash and
      double quote, so `s` can be written bare. */
  predicate SafeBare(s: string)
  {
    forall c :: c in s ==> '!' <= c <= '~' && c != '\\' && c != '"'
  }

  /** A string needs quoting exactly when it cannot be written bare. */
  lemma QuotingIsUnsafe(s: string)
    ensures NeedsQuoting(s) <==> !SafeBare(s)
  {
    if NeedsQuoting(s) {
      var i :| 0 <= i < |s| && QuoteByte(s[i]);
      assert s[i] in s;
    }
    if !SafeBare(s) {
      var c :| c in s && !('!' <= c <= '~' && c != '\\' && c != '"');
      var i :| 0 <= i < |s| && s[i] == c;
      assert QuoteByte(s[i]);
    }
  }

  /** `needsQuote`: scans the bytes and stops at the first one that forces quoting. */
  method NeedsQuote(s: string) returns (b: bool)
    ensures b == NeedsQuoting(s)
    ensures b <==> !SafeBare(s)
  {
    for i := 0 to |s|
      invariant forall j :: 0 <= j < i ==> !QuoteByte(s[j])
    {
      if (s[i] as int) < 0x20 || (s[i] as int) > 0x7e || s[i] == ' ' || s[i] == '\\' || s[i] == '"' {
        QuotingIsUnsafe(s);
        return true;
      }
    }
    QuotingIsUnsafe(s);
    return false;
  }

  /** ASCII upper case of one byte. */
  function UpperByte(c: char): char
  {
    if 'a' <= c <= 'z' then (c as int - 32) as char else c
  }

  /** `strings.ToUpper` on ASCII text. */
  function ToUpper(s: string): (r: string)
    ensures |r| == |s|
    ensures forall i :: 0 <= i < |r| ==> !('a' <= r[i] <= 'z')
    ensures forall i :: 0 <= i < |r| ==> r[i] == s[i] || ('a' <= s[i] <= 'z' && r[i] as int == s[i] as int - 32)
  {
    seq(|s|, i requires 0 <= i < |s| => UpperByte(s[i]))
  }

  /** The level as the header shows it: a four-byte label and its colour. */
  datatype LevelView = LevelView(text: string, color: nat)

  predicate HasStringLevel(e: Event)
  {
    LevelField in e && e[LevelField].Str?
  }

  /** The level label and colour of a record, or None where the source slices
      `strings.ToUpper(l)[0:4]` out of range (a level shorter than four bytes). */
  function ResolveLevel(e: Event, noColor: bool): (r: Option<LevelView>)
    ensures r.None? <==> HasStringLevel(e) && |e[LevelField].text| < 4
    ensures !HasStringLevel(e) ==> r == Some(LevelView("????", Reset))
    ensures r.Some? ==> |r.value.text| == 4
    ensures r.Some? && HasStringLevel(e) ==>
      r.value.text == ToUpper(e[LevelField].text)[..4] &&
      r.value.color == (if noColor then Reset else LevelColor(e[LevelField].text))
  {
    if HasStringLevel(e) then
      var l := e[LevelField].text;
      var upper := ToUpper(l);
      if |upper| < 4 then None
      else Some(LevelView(upper[..4], if noColor then Reset else LevelColor(l)))
    else Some(LevelView("????", Reset))
  }

  /** The text of a non-reserved field's value. */
  function FormatValue(v: Value, lib: Library): (r: string)
    ensures v.Str? ==> r == (if SafeBare(v.text) then v.text else lib.quote(v.text))
    ensures v.Num? ==> r == v.literal
    ensures !v.Str? && !v.Num? && lib.marshal(v).Ok? ==> r == lib.marshal(v).value
    ensures !v.Str? && !v.Num? && lib.marshal(v).Err? ==> r == "[error: " + lib.marshal(v).error + "]"
  {
    match v
    case Str(s) => QuotingIsUnsafe(s); if NeedsQuoting(s) then lib.quote(s) else s
    case Num(t) => t
    case _ =>
      match lib.marshal(v)
      case Ok(b) => b
      case Err(m) => "[error: " + m + "]"
  }

  /** One span of the line: plain text, or text the writer colours. */
  datatype Piece = Plain(text: string) | Painted(text: string, color: nat)

  function PaintOne(p: Piece, enabled: bool): string
  {
    match p
    case Plain(t) => t
    case Painted(t, c) => Colorize(t, c, enabled)
  }

  /** The spans written one after another, coloured when `enabled`. */
  function Paint(ps: seq<Piece>, enabled: bool): string
  {
    if ps == [] then "" else Paint(ps[..|ps| - 1], enabled) + PaintOne(ps[|ps| - 1], enabled)
  }

  /** The header, as the two format strings of `Write` lay it out:
      `T |L| C |M ` with a caller, `T |L| M` without one. */
  function Header(e: Event, level: LevelView, lib: Library): (r: seq<Piece>)
    ensures |r| == if CallerField in e then 8 else 5
    ensures r[0] == Painted(FormatTime(Get(e, TimeField), lib), DarkGray)
    ensures r[2] == Painted(level.text, level.color)
    ensures forall i :: 0 <= i < |r| && i != 0 && i != 2 && r[i].Painted? ==> r[i].color == Reset
  {
    var time := Painted(FormatTime(Get(e, TimeField), lib), DarkGray);
    var lvl := Painted(level.text, level.color);
    var message := Painted(Show(Get(e, MessageField), lib), Reset);
    if CallerField in e then
      [time, Plain(" |"), lvl, Plain("| "), Painted(Show(e[CallerField], lib), Reset), Plain(" |"), message, Plain(" ")]
    else
      [time, Plain(" |"), lvl, Plain("| "), message]
  }

  /** The names of the fields printed as `key=value` pairs. */
  function FieldNames(e: Event): set<string>
  {
    e.Keys - Reserved
  }

  /** One ` key=value` pair. */
  function Pair(key: string, v: Value, lib: Library): seq<Piece>
  {
    [Plain(" "), Painted(key, Cyan), Plain("="), Plain(FormatValue(v, lib))]
  }

  /** The pairs of the given keys, in the given order. */
  function Pairs(keys: seq<string>, e: Event, lib: Library): seq<Piece>
    requires forall k :: k in keys ==> k in e
  {
    if keys == [] then []
    else Pairs(keys[..|keys| - 1], e, lib) + Pair(keys[|keys| - 1], e[keys[|keys| - 1]], lib)
  }

  /** The line `Write` emits for a decoded record, or None where it panics. */
  ghost function Render(e: Event, noColor: bool, lib: Library): (r: Option<string>)
    ensures r.None? <==> HasStringLevel(e) && |e[LevelField].text| < 4
    ensures r.Some? ==> |r.value| > 0 && r.value[|r.value| - 1] == '\n'
  {
    match ResolveLevel(e, noColor)
    case None => None
    case Some(level) =>
      var keys := SortedKeys(FieldNames(e));
      Some(Paint(Header(e, level, lib) + Pairs(keys, e, lib) + [Plain("\n")], !noColor))
  }

  lemma {:induction false} PaintAppend(xs: seq<Piece>, ys: seq<Piece>, enabled: bool)
    ensures Paint(xs + ys, enabled) == Paint(xs, enabled) + Paint(ys, enabled)
    decreases |ys|
  {
    if ys == [] {
      assert xs + ys == xs;
    } else {
      var init, last := ys[..|ys| - 1], ys[|ys| - 1];
      var all := xs + ys;
      assert all[..|all| - 1] == xs + init;
      assert all[|all| - 1] == last;
      calc {
        Paint(all, enabled);
        Paint(xs + init, enabled) + PaintOne(last, enabled);
        { PaintAppend(xs, init, enabled); }
        Paint(xs, enabled) + Paint(init, enabled) + PaintOne(last, enabled);
      }
    }
  }

  /** Painting one span more appends that span's painting. */
  lemma PaintSnoc(ps: seq<Piece>, p: Piece, enabled: bool)
    ensures Paint(ps + [p], enabled) == Paint(ps, enabled) + PaintOne(p, enabled)
  {
    assert (ps + [p])[..|ps|] == ps;
  }

  // Painting a short literal list of spans, one span at a time.

  lemma PaintTwo(a: Piece, b: Piece, enabled: bool)
    ensures Paint([a, b], enabled) == PaintOne(a, enabled) + PaintOne(b, enabled)
  {
    PaintSnoc([], a, enabled);
    assert [] + [a] == [a];
    PaintSnoc([a], b, enabled);
    assert [a] + [b] == [a, b];
  }

  lemma PaintThree(a: Piece, b: Piece, c: Piece, enabled: bool)
    ensures Paint([a, b, c], enabled) == PaintOne(a, enabled) + PaintOne(b, enabled) + PaintOne(c, enabled)
  {
    PaintTwo(a, b, enabled);
    PaintSnoc([a, b], c, enabled);
    assert [a, b] + [c] == [a, b, c];
  }

  lemma PaintFour(a: Piece, b: Piece, c: Piece, d: Piece, enabled: bool)
    ensures Paint([a, b, c, d], enabled)
         == PaintOne(a, enabled) + PaintOne(b, enabled) + PaintOne(c, enabled) + PaintOne(d, enabled)
  {
    PaintThree(a, b, c, enabled);
    PaintSnoc([a, b, c], d, enabled);
    assert [a, b, c] + [d] == [a, b, c, d];
  }

  lemma PaintFive(a: Piece, b: Piece, c: Piece, d: Piece, e: Piece, enabled: bool)
    ensures Paint([a, b, c, d, e], enabled)
         == PaintOne(a, enabled) + PaintOne(b, enabled) + PaintOne(c, enabled) + PaintOne(d, enabled)
            + PaintOne(e, enabled)
  {
    PaintFour(a, b, c, d, enabled);
    PaintSnoc([a, b, c, d], e, enabled);
    assert [a, b, c, d] + [e] == [a, b, c, d, e];
  }

  lemma PaintSix(a: Piece, b: Piece, c: Piece, d: Piece, e: Piece, f: Piece, enabled: bool)
    ensures Paint([a, b, c, d, e, f], enabled)
         == PaintOne(a, enabled) + PaintOne(b, enabled) + PaintOne(c, enabled) + PaintOne(d, enabled)
            + PaintOne(e, enabled) + PaintOne(f, enabled)
  {
    PaintFive(a, b, c, d, e, enabled);
    PaintSnoc([a, b, c, d, e], f, enabled);
    assert [a, b, c, d, e] + [f] == [a, b, c, d, e, f];
  }

  lemma PaintSeven(a: Piece, b: Piece, c: Piece, d: Piece, e: Piece, f: Piece, g: Piece, enabled: bool)
    ensures Paint([a, b, c, d, e, f, g], enabled)
         == PaintOne(a, enabled) + PaintOne(b, enabled) + PaintOne(c, enabled) + PaintOne(d, enabled)
            + PaintOne(e, enabled) + PaintOne(f, enabled) + PaintOne(g, enabled)
  {
    PaintSix(a, b, c, d, e, f, enabled);
    PaintSnoc([a, b, c, d, e, f], g, enabled);
    assert [a, b, c, d, e, f] + [g] == [a, b, c, d, e, f, g];
  }

  lemma PaintEight(a: Piece, b: Piece, c: Piece, d: Piece, e: Piece, f: Piece, g: Piece, h: Piece,
                   enabled: bool)
    ensures Paint([a, b, c, d, e, f, g, h], enabled)
         == PaintOne(a, enabled) + PaintOne(b, enabled) + PaintOne(c, enabled) + PaintOne(d, enabled)
            + PaintOne(e, enabled) + PaintOne(f, enabled) + PaintOne(g, enabled) + PaintOne(h, enabled)
  {
    PaintSeven(a, b, c, d, e, f, g, enabled);
    PaintSnoc([a, b, c, d, e, f, g], h, enabled);
    assert [a, b, c, d, e, f, g] + [h] == [a, b, c, d, e, f, g, h];
  }

  /** The destination writer: the sequence of `Write` calls it received. */
  class Sink {
    var writes: seq<string>

    constructor ()
      ensures writes == []
    {
      writes := [];
    }

    method Write(b: string)
      modifies this
      ensures writes == old(writes) + [b]
    {
      writes := writes + [b];
    }
  }

  /** The pairs of `keys[..i + 1]`: those of `keys[..i]`, then the pair of `keys[i]`. */
  lemma PairsStep(keys: seq<string>, i: nat, e: Event, lib: Library, enabled: bool)
    requires i < |keys|
    requires forall k :: k in keys ==> k in e
    ensures Paint(Pairs(keys[..i + 1], e, lib), enabled)
         == Paint(Pairs(keys[..i], e, lib), enabled)
            + " " + Colorize(keys[i], Cyan, enabled) + "=" + FormatValue(e[keys[i]], lib)
  {
    var pair := Pair(keys[i], e[keys[i]], lib);
    assert keys[..i + 1][..i] == keys[..i];
    assert Pairs(keys[..i + 1], e, lib) == Pairs(keys[..i], e, lib) + pair;
    PaintAppend(Pairs(keys[..i], e, lib), pair, enabled);
    PaintPair(keys[i], e[keys[i]], lib, enabled);
  }

  lemma PaintPair(key: string, v: Value, lib: Library, enabled: bool)
    ensures Paint(Pair(key, v, lib), enabled) == " " + Colorize(key, Cyan, enabled) + "=" + FormatValue(v, lib)
  {
    PaintFour(Plain(" "), Painted(key, Cyan), Plain("="), Plain(FormatValue(v, lib)), enabled);
  }

  /** `Render` of a record whose level resolves, spelled out. */
  lemma RenderUnfold(e: Event, noColor: bool, lib: Library, level: LevelView)
    requires ResolveLevel(e, noColor) == Some(level)
    ensures Render(e, noColor, lib)
         == Some(Paint(Header(e, level, lib) + Pairs(SortedKeys(FieldNames(e)), e, lib) + [Plain("\n")], !noColor))
  {
  }

  /** The names of the non-reserved fields of a record, each once, in the
      order the map happens to yield them. */
  method CollectFields(event: Event) returns (fields: seq<string>)
    ensures multiset(fields) == multiset(FieldNames(event))
  {
    fields := [];
    var unseen := event.Keys;
    while unseen != {}
      invariant unseen <= event.Keys
      invariant multiset(fields) == multiset(FieldNames(event) - unseen)
      decreases |unseen|
    {
      var field :| field in unseen;
      unseen := unseen - {field};
      if field !in Reserved {
        assert FieldNames(event) - unseen == (FieldNames(event) - (unseen + {field})) + {field};
        fields := fields + [field];
      } else {
        assert FieldNames(event) - unseen == FieldNames(event) - (unseen + {field});
      }
    }
  }

  /** The non-reserved field names, collected and then sorted in place. */
  method SortedFields(event: Event) returns (keys: seq<string>)
    ensures keys == SortedKeys(FieldNames(event))
  {
    var fields := CollectFields(event);
    var sorted := new string[|fields|](i requires 0 <= i < |fields| => fields[i]);
    assert sorted[..] == fields;
    SortStrings(sorted);
    keys := sorted[..];
    SortedEnumeration(keys, FieldNames(event));
  }

  /** The value text `Write` appends for one field: the type switch of its loop. */
  method FormatField(v: Value, lib: Library) returns (text: string)
    ensures text == FormatValue(v, lib)
  {
    match v
    case Str(s) =>
      var quote := NeedsQuote(s);
      if quote {
        text := lib.quote(s);
      } else {
        text := s;
      }
    case Num(t) =>
      text := t;
    case _ =>
      match lib.marshal(v)
      case Ok(b) => text := b;
      case Err(m) => text := "[error: " + m + "]";
  }

  /** Fills a fresh buffer with the line of a record whose level resolved to
      `level`: the header, the ` key=value` pairs of the non-reserved fields in
      ascending key order, and the final newline. */
  method FormatRecord(event: Event, level: LevelView, enabled: bool, lib: Library) returns (buf: string)
    ensures buf == Paint(Header(event, level, lib) + Pairs(SortedKeys(FieldNames(event)), event, lib) + [Plain("\n")], enabled)
  {
    var header := Header(event, level, lib);
    buf := Paint(header, enabled);
    var keys := SortedFields(event);
    var pairs := FormatPairs(event, keys, enabled, lib);
    buf := buf + pairs;
    buf := buf + "\n";
    LineAssembly(header, Pairs(keys, event, lib), enabled);
  }

  /** The ` key=value` pairs of the given keys, appended one by one. */
  method FormatPairs(event: Event, keys: seq<string>, enabled: bool, lib: Library) returns (buf: string)
    requires forall k :: k in keys ==> k in event
    ensures buf == Paint(Pairs(keys, event, lib), enabled)
  {
    buf := "";
    assert keys[..0] == [];
    for i := 0 to |keys|
      invariant buf == Paint(Pairs(keys[..i], event, lib), enabled)
    {
      var field := keys[i];
      buf := buf + " " + Colorize(field, Cyan, enabled) + "=";
      var text := FormatField(event[field], lib);
      buf := buf + text;
      PairsStep(keys, i, event, lib, enabled);
    }
    assert keys[..|keys|] == keys;
  }

  /** Painting the header, the pairs and the newline one after the other. */
  lemma LineAssembly(header: seq<Piece>, pairs: seq<Piece>, enabled: bool)
    ensures Paint(header + pairs + [Plain("\n")], enabled) == Paint(header, enabled) + Paint(pairs, enabled) + "\n"
  {
    PaintAppend(header, pairs, enabled);
    PaintAppend(header + pairs, [Plain("\n")], enabled);
    assert [Plain("\n")][..0] == [];
  }

  /** How a call to `Write` ends. */
  datatype Outcome =
    | Returned(n: nat, err: Option<string>)
    | Panicked(reason: string)

  class ConsoleWriterEx {
    const Out: Sink
    const NoColor: bool

    constructor (out: Sink, noColor: bool)
      ensures Out == out && NoColor == noColor
    {
      Out := out;
      NoColor := noColor;
    }

    /** Decodes one record from `p` and writes its line to `Out` in one call. */
    method Write(p: string, lib: Library) returns (r: Outcome)
      modifies Out
      ensures lib.decode(p).Err? ==>
        r == Returned(0, Some(lib.decode(p).error)) && Out.writes == old(Out.writes)
      ensures lib.decode(p).Ok? && Render(lib.decode(p).value, NoColor, lib).None? ==>
        r.Panicked? && Out.writes == old(Out.writes)
      ensures lib.decode(p).Ok? && Render(lib.decode(p).value, NoColor, lib).Some? ==>
        r == Returned(|p|, None) &&
        Out.writes == old(Out.writes) + [Render(lib.decode(p).value, NoColor, lib).value]
    {
      var input := DecodeIfBinaryToBytes(p);
      var decoded := lib.decode(input);
      if decoded.Err? {
        return Returned(0, Some(decoded.error));
      }
      var event := decoded.value;
      var lvlColor := Reset;
      var level := "????";
      if LevelField in event && event[LevelField].Str? {
        var l := event[LevelField].text;
        if !NoColor {
          lvlColor := LevelColor(l);
        }
        var upper := ToUpper(l);
        if |upper| < 4 {
          return Panicked("slice bounds out of range");
        }
        level := upper[..4];
      }
      assert ResolveLevel(event, NoColor) == Some(LevelView(level, lvlColor));
      var line := FormatRecord(event, LevelView(level, lvlColor), !NoColor, lib);
      RenderUnfold(event, NoColor, lib, LevelView(level, lvlColor));
      Out.Write(line);
      return Returned(|input|, None);
    }
  }
}
