/**
  The bytes of a log record. The text produced by `fmt` is taken as given;
  what the logger adds around it depends only on the entry point used.

  `Print` sends the text as it is, `Println` and `Printf` append a newline.
  `Fatal` and `Panic` put `"fatal: "` or `"panic: "` in front, their `ln`
  variants also append a newline, and `Fatalf` and `Panicf` write the
  formatted text with neither a prefix nor a newline.
 */
module Framing {
  import opened Base

  /** The entry points that hand a record to `Run`. */
  datatype PrintKind = Print | Println | Printf

  /** The entry points that write a last record themselves and end the program. */
  datatype FatalKind = Fatal | Fatalln | Fatalf | Panic | Panicln | Panicf

  /** How a fatal entry point ends the program: `os.Exit(1)` or a panic. */
  datatype Ending = Exit(code: int) | Panicked

  const FatalPrefix: seq<byte> := Ascii("fatal: ")
  const PanicPrefix: seq<byte> := Ascii("panic: ")
  const Newline: seq<byte> := [10]

  /** What an entry point puts in front of the text. */
  function Prefix(k: FatalKind): seq<byte>
  {
    match k
    case Fatal | Fatalln => FatalPrefix
    case Panic | Panicln => PanicPrefix
    case Fatalf | Panicf => []
  }

  /** What a print entry point puts after the text. */
  function PrintSuffix(k: PrintKind): seq<byte>
  {
    if k == Print then [] else Newline
  }

  /** What a fatal entry point puts after the text. */
  function FatalSuffix(k: FatalKind): seq<byte>
  {
    if k == Fatalln || k == Panicln then Newline else []
  }

  /** The text with a prefix in front and a suffix after it. */
  function Wrap(prefix: seq<byte>, text: seq<byte>, suffix: seq<byte>): (r: seq<byte>)
    ensures |r| == |prefix| + |text| + |suffix|
  {
    prefix + text + suffix
  }

  /**
    The text between a prefix and a suffix, or `None` when `r` does not
    start with the prefix and end with the suffix.
   */
  function Unwrap(prefix: seq<byte>, r: seq<byte>, suffix: seq<byte>): (t: Option<seq<byte>>)
    ensures t.Some? ==> |prefix| + |t.value| + |suffix| == |r|
  {
    if |prefix| + |suffix| <= |r| && r[..|prefix|] == prefix && r[|r| - |suffix|..] == suffix
    then Some(r[|prefix|..|r| - |suffix|])
    else None
  }

  /** Unwrapping gives back the text exactly when the record is that text wrapped. */
  lemma WrapUnwrap(prefix: seq<byte>, text: seq<byte>, suffix: seq<byte>, r: seq<byte>)
    ensures Wrap(prefix, text, suffix) == r <==> Unwrap(prefix, r, suffix) == Some(text)
  {
    var wrapped := prefix + text + suffix;
    assert wrapped[..|prefix|] == prefix;
    assert wrapped[|wrapped| - |suffix|..] == suffix;
    assert wrapped[|prefix|..|wrapped| - |suffix|] == text;
    if Unwrap(prefix, r, suffix) == Some(text) {
      assert r == r[..|prefix|] + r[|prefix|..|r| - |suffix|] + r[|r| - |suffix|..];
    }
  }

  /** The record `Print`, `Println` or `Printf` hands to `Run` for a text. */
  function PrintRecord(k: PrintKind, text: seq<byte>): (r: seq<byte>)
    ensures |r| == |text| + (if k == Print then 0 else 1)
  {
    Wrap([], text, PrintSuffix(k))
  }

  /** The text a print record carries, or `None` if `r` cannot be one of kind `k`. */
  function PrintText(k: PrintKind, r: seq<byte>): (t: Option<seq<byte>>)
    ensures k == Print ==> t == Some(r)
  {
    assert r[..0] == [] && r[0..|r| - 0] == r && r[|r| - 0..] == [];
    Unwrap([], r, PrintSuffix(k))
  }

  /**
    A print record determines its text: `PrintText` recovers it, and only
    records built by `PrintRecord` are accepted.
   */
  lemma PrintRoundTrip(k: PrintKind, text: seq<byte>, r: seq<byte>)
    ensures PrintRecord(k, text) == r <==> PrintText(k, r) == Some(text)
  {
    WrapUnwrap([], text, PrintSuffix(k), r);
  }

  /**
    `Println` and `Printf` records end in a newline that follows the text;
    a `Print` record is the text alone, so two texts never share a record.
   */
  lemma PrintRecordShape(k: PrintKind, text: seq<byte>)
    ensures k == Print ==> PrintRecord(k, text) == text
    ensures k != Print ==>
              PrintRecord(k, text)[..|text|] == text && PrintRecord(k, text)[|text|] == 10
  {
  }

  /** The record a fatal entry point writes for a text. */
  function FatalRecord(k: FatalKind, text: seq<byte>): (r: seq<byte>)
    ensures |r| == |Prefix(k)| + |text| + |FatalSuffix(k)|
  {
    Wrap(Prefix(k), text, FatalSuffix(k))
  }

  /** The text a fatal record carries, or `None` if `r` cannot be one of kind `k`. */
  function FatalText(k: FatalKind, r: seq<byte>): (t: Option<seq<byte>>)
    ensures (k == Fatalf || k == Panicf) ==> t == Some(r)
  {
    assert r[..0] == [] && r[0..|r| - 0] == r && r[|r| - 0..] == [];
    Unwrap(Prefix(k), r, FatalSuffix(k))
  }

  /** A fatal record determines its text, and only wrapped texts are accepted. */
  lemma FatalRoundTrip(k: FatalKind, text: seq<byte>, r: seq<byte>)
    ensures FatalRecord(k, text) == r <==> FatalText(k, r) == Some(text)
  {
    WrapUnwrap(Prefix(k), text, FatalSuffix(k), r);
  }

  /**
    `Fatalf` and `Panicf` write the formatted text unchanged: no prefix and
    no newline, unlike every other fatal entry point.
   */
  lemma FormattedFatalIsBare(k: FatalKind, text: seq<byte>)
    ensures (k == Fatalf || k == Panicf) <==> (Prefix(k) == [] && FatalRecord(k, text) == text)
  {
    if k != Fatalf && k != Panicf {
      assert |Prefix(k)| == 7;
    }
  }

  /**
    A record written by `Fatal` or `Fatalln` is never a record written by
    `Panic` or `Panicln`, whatever the texts: the prefixes differ in their
    first byte.
   */
  lemma FatalPanicDistinct(k1: FatalKind, t1: seq<byte>, k2: FatalKind, t2: seq<byte>)
    requires k1 == Fatal || k1 == Fatalln
    requires k2 == Panic || k2 == Panicln
    ensures FatalRecord(k1, t1) != FatalRecord(k2, t2)
  {
    assert FatalRecord(k1, t1)[0] == 'f' as int;
    assert FatalRecord(k2, t2)[0] == 'p' as int;
  }

  /** `Fatal`, `Fatalln` and `Fatalf` exit with status 1; the panic variants panic. */
  function EndingOf(k: FatalKind): (e: Ending)
    ensures e.Exit? <==> (k == Fatal || k == Fatalln || k == Fatalf)
    ensures e.Exit? ==> e.code == 1
  {
    match k
    case Fatal | Fatalln | Fatalf => Exit(1)
    case Panic | Panicln | Panicf => Panicked
  }
}
