# consoleEx console writer, modelled in Dafny

The package `consoleEx` provides `ConsoleWriterEx`, an `io.Writer` for zerolog.
Each `Write` receives one JSON log record. The writer turns it into one
human-readable line and writes that line to its `Out` writer:

    <time> |<LEVL>| [<caller> |]<message>[ ] key=value key=value ...\n

The time is dark grey, the level label is in its severity colour, and the
field names are cyan. With `NoColor` set, every span is plain text.

The project models that writer:

- `wrappers.dfy`: `Option` and `Result`.
- `json.dfy`: a decoded record, as a map from field names to JSON values.
  Numbers keep their literal text, because the decoder runs with `UseNumber`.
  `Get` reads an absent field as `Null`, as a Go map of interfaces does.
- `string_order.dfy`: Go's byte-wise string order.
  - `SortStrings` is an in-place selection sort standing in for `sort.Strings`, proved sorted and a permutation.
  - `SortedKeys` is the specification of a sorted key list: the unique strictly ascending enumeration of a set.
- `console.dfy`: the writer itself.
  - The pure helpers `levelColor`, `colorize`, `formatTime` and `decodeIfBinaryToBytes`.
  - The byte loop `needsQuote` as a method.
  - The value formatting of the pairs.
  - The specification `Render` of the line a record produces.
  - The class `ConsoleWriterEx`, whose `Write` method is proved against `Render`. It decodes, builds the field list in a loop, sorts it in an array, formats the pairs in a loop and appends one line to `Out`.
- `console_properties.dfy`: what the rendered line promises.
  - Turning colour off is the same as removing the escape sequences.
  - The exact header layout, including the trailing space that only the caller form has.
  - The severity table.
  - Two concrete records with their lines.

Go strings and byte slices are Dafny strings with one character per byte.
The library routines the writer calls are fields of `Console.Library`, passed in as a parameter:

- JSON decoding;
- `strconv.Quote`;
- `json.Marshal`;
- fmt's `%v` of arrays and objects;
- `json.Number.Int64`;
- RFC 3339 time formatting.

A level string shorter than four bytes makes the source panic at
`strings.ToUpper(l)[0:4]`. `Write` returns `Panicked` there, and `Render`
returns `None`.

`????` appears only when `level` is absent or not a string. An unrecognised
string level shows its own first four upper-cased bytes, uncoloured.

## Model

| member | source | states |
|---|---|---|
| Console.LevelColor | console.go:131-144 | The colour is non-reset exactly for debug, info, warn, error, fatal and panic. It is red exactly for error, fatal and panic. Only reset, red, green, yellow and magenta occur. |
| ConsoleProperties.SeverityLevels | console.go:55-62 | Each of the six severities shows as DEBU, INFO, WARN, ERRO, FATA or PANI. Its colour is magenta, green, yellow or red, and reset when colour is off. |
| Console.ToUpper | console.go:61 | Upper-casing keeps the length, leaves no lower-case ASCII letter, and changes exactly the lower-case letters. |
| Console.ResolveLevel | console.go:55-62 | The record is out of range (a panic) exactly when `level` is a string shorter than four bytes. A missing or non-string level gives `????` in reset. Otherwise the label is the first four bytes of the upper-cased level, and its colour is `levelColor`'s unless NoColor is set. |
| Console.Decimal | console.go:128 | The `%d` of a colour code is a non-empty digit string without a leading zero that spells the code. |
| Console.Sgr | console.go:128 | A colour sequence is ESC, `[`, the decimal digits spelling the code, and `m`. |
| Console.Colorize | console.go:124-129 | Disabled, the text is returned as is. Enabled, it is the colour sequence of the code, the text, and the reset sequence ESC `[0m`. |
| Console.Show | console.go:65-75 | fmt's `%v` of caller and message: absent or null is `<nil>`, a bool is `true` or `false`, a string is itself, a number is its literal, and arrays and objects go to the library formatter. |
| Console.Header | console.go:63-76 | The header has eight spans with a caller and five without. The time is dark grey (90), the label has the level's colour, and every other coloured span (caller, message) uses reset (0). |
| Console.FormatTime | console.go:113-122 | A string time is shown verbatim. A number is shown as the RFC 3339 form of its Int64 value. Anything else, absent included, is `<nil>`. |
| Console.QuotingIsUnsafe | console.go:146-153 | "Some byte forces quoting" is the negation of "every byte is printable ASCII other than space, backslash and double quote". |
| Console.NeedsQuote | console.go:146-153 | The byte loop returns true iff some byte is below 0x20, above 0x7e, a space, a backslash or a double quote. So the empty string needs no quoting. |
| Console.FormatValue | console.go:89-105 | A string value is raw when no byte needs quoting and quoted otherwise. A number is its literal text. Anything else is its JSON encoding, or `[error: <msg>]` when encoding fails. |
| Console.FormatField | console.go:89-105 | The type switch computes exactly the value text of FormatValue. |
| Console.CollectFields | console.go:78-85 | The collected field list holds every non-reserved field name exactly once, and no reserved name. |
| StringOrder.LessEqTotal | console.go:86 | Go's byte-wise string order is total. |
| StringOrder.LessEqTransitive | console.go:86 | Go's byte-wise string order is transitive. |
| StringOrder.LessEqAntisymmetric | console.go:86 | Go's byte-wise string order is antisymmetric. |
| StringOrder.IndexOfLeast | console.go:86 | The scan returns the position of a least string of the unsorted rest. |
| StringOrder.SortStrings | console.go:86 | After sorting in place, the array is in ascending order and is a permutation of its old contents. |
| StringOrder.SortedKeys | console.go:78-86 | The key list is strictly ascending and holds exactly the members of the set, each once. |
| StringOrder.StrictlySortedUnique | console.go:86 | Two strictly ascending lists with the same members are equal. |
| StringOrder.SortedEnumeration | console.go:86 | Any ascending permutation of a set's members is the set's sorted key list. So the output order does not depend on map iteration order. |
| Console.SortedFields | console.go:78-86 | Collecting then sorting yields exactly the sorted list of non-reserved field names. |
| Console.PaintPair | console.go:88-105 | A pair is a space, the key coloured cyan, `=` and the value text. |
| Console.FormatPairs | console.go:87-106 | The loop's output is the pairs of the given keys, in order, coloured or not. |
| Console.LineAssembly | console.go:107 | The line is the header, then the pairs, then exactly one newline. |
| Console.FormatRecord | console.go:63-107 | The buffer built for a record is its header, then its sorted pairs, then a newline. |
| Console.Render | console.go:44-111 | The line exists exactly when the level does not panic, and it ends with a newline. |
| Console.Sink.Write | console.go:108 | One write appends the whole buffer to the destination as one element. |
| Console.ConsoleWriterEx.Write | console.go:44-111 | The decoder gets `p` unchanged (`decodeIfBinaryToBytes` is the identity). On a decode error: n = 0, the error is returned and nothing is written. On a short level: a panic and nothing is written. Otherwise: exactly one write of the rendered line, no error, and n = len(p). |
| ConsoleProperties.StripColorized | console.go:124-129 | When `s` holds no ESC byte, `colorize(s, c, true)` stripped of escape sequences is `s`, which is `colorize(s, c, false)`. |
| ConsoleProperties.StripPaint | console.go:63-107 | When the uncoloured text holds no ESC byte, any sequence of spans, coloured and then stripped, gives the uncoloured text. |
| ConsoleProperties.PlainIgnoresLevelColor | console.go:55-62 | Without colour, the line does not depend on the level colour that was chosen. |
| ConsoleProperties.NoColorIsStripped | console.go:44-111 | For any record whose NoColor line holds no ESC byte, the NoColor line is the coloured line with its escape sequences removed. |
| ConsoleProperties.PlainPairsArePairs | console.go:87-106 | Uncoloured pairs are ` key=value` for each key in turn. |
| ConsoleProperties.HeaderWithCaller | console.go:64-69 | With a caller, coloured or not, the header is colorize(time, 90), space and bar, colorize(label, level colour), bar and space, colorize(caller, 0), space and bar, colorize(message, 0), and one trailing space. |
| ConsoleProperties.HeaderWithoutCaller | console.go:71-75 | Without a caller, coloured or not, the header is colorize(time, 90), space and bar, colorize(label, level colour), bar and space, and colorize(message, 0), with no trailing space. |
| ConsoleProperties.PlainLayout | console.go:63-76 | The uncoloured line is the header in its caller or no-caller form, then the sorted ` key=value` pairs, then a newline. |
| ConsoleProperties.ErrorRecordExample | console.go:44-111 | The record with level error, time 1700000000 at UTC, message boom and code 42 renders, without colour, as the literal line with time `2023-11-14T22:13:20Z`, label `ERRO`, message `boom` and the pair `code=42`. |
| ConsoleProperties.CallerRecordExample | console.go:63-88 | With caller `main.go:10` and no time, the uncoloured line shows time `<nil>`, label `INFO`, the caller and message `hi`, then ` n=1`. The message and the first pair are separated by two spaces. |

## Left out

- `GetWriter` (console.go:158-171): opening the log file, `os.Exit`, coloured stdout and `io.MultiWriter` are I/O and are not modelled.
- The buffer pool (console.go:31-35, 53-54): each call builds a fresh string. In the source the pooled buffer is shared between calls and never reset after `Get`. So bytes a failed or short write to `Out` left in it are sent ahead of a later record's line. The model does not capture that carry-over.
- JSON decoding, `strconv.Quote`, `json.Marshal`, fmt's `%v` of arrays and objects, `json.Number.Int64` and `time.Unix(u, 0).Format(time.RFC3339)` are library code. They are parameters (`Console.Library`), and their results are taken as given. The time zone the clock formats in is part of that parameter.
- Console.ToUpper: ASCII only. `strings.ToUpper` also maps non-ASCII letters, which can change the byte length of the level.
- Console.NeedsQuote: examines every byte, while the Go loop visits only the first byte of each UTF-8 sequence. The verdicts agree, because the first byte of any non-ASCII sequence is above 0x7e. That agreement is argued, not proved, since UTF-8 decoding is not modelled.
- Console.Sink.Write: cannot fail, and always takes the whole line. A failing or short-writing `Out` is not modelled. In the source, `Write` ignores the error of `WriteTo` and still returns n = len(p) with no error, and the unsent bytes stay in the pooled buffer.
- ConsoleProperties.NoColorIsStripped: assumes the uncoloured line contains no ESC byte. A value that carries its own escape bytes would be stripped too.
- Console.ConsoleWriterEx.Write: the index-out-of-range panic is a `Panicked` outcome, not a Go panic unwinding through the caller.
- Concurrency: calls are modelled one at a time. The shared state between calls is `Out` and, in the source, the buffer pool, whose contents the model does not carry from one call to the next.
