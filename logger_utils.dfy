/** The logger of src/utils/logger.utils.ts. Writing to the console becomes
    appending a LogLine to the logger's `emitted` record; the
    LOGGING_DISABLED environment flag is a parameter. */
module LoggerUtils {
  import opened Text

  datatype LogLevel = DEBUG | INFO | WARN | ERROR {
    /** The numeric value of the TypeScript enum member. */
    function Ordinal(): nat {
      match this
      case DEBUG => 0
      case INFO => 1
      case WARN => 2
      case ERROR => 3
    }
  }

  /** console.error or console.log. */
  datatype Channel = Stdout | Stderr

  /** The chalk colour the line is wrapped in. */
  datatype Colour = Red | Yellow | White | Blue | Cyan

  datatype LogLine = LogLine(channel: Channel, colour: Colour, text: string)

  const PREFIX_WIDTH: nat := 15

  /** `[child-<pid>]` for a truthy pid, `[main]` otherwise. */
  function Prefix(pid: int): (p: string)
    ensures |p| >= 6 && p[0] == '[' && p[|p| - 1] == ']'
  {
    if pid != 0 then "[child-" + IntToString(pid) + "]" else "[main]"
  }

  /** Lines of different processes carry different prefixes. */
  lemma PrefixInjective(p: int, q: int)
    requires Prefix(p) == Prefix(q)
    ensures p == q
  {
    if p != 0 && q != 0 {
      var sp, sq := IntToString(p), IntToString(q);
      assert sp == Prefix(p)[7..|Prefix(p)| - 1];
      assert sq == Prefix(q)[7..|Prefix(q)| - 1];
      if p < 0 && q < 0 {
        assert sp[1..] == NatToString(-p) && sq[1..] == NatToString(-q);
        NatToStringInjective(-p, -q);
      } else if p >= 0 && q >= 0 {
        NatToStringInjective(p, q);
      }
    }
  }

  /** attachProcessPidIfPresent: the prefix padded with spaces to fifteen
      characters, followed by the text. */
  function AttachProcessPidIfPresent(pid: int, text: string): (r: string)
    ensures var p := Prefix(pid);
      var width := if |p| >= PREFIX_WIDTH then |p| else PREFIX_WIDTH;
      && |r| == width + |text|
      && r[..|p|] == p
      && (forall i | |p| <= i < width :: r[i] == ' ')
      && r[width..] == text
  {
    PadEnd(Prefix(pid), PREFIX_WIDTH) + text
  }

  /** The line printLogLine writes, before colouring: it has no surrounding
      whitespace and starts with the whole process prefix. */
  function Format(pid: int, text: string): (r: string)
    ensures IsTrimmed(r)
    ensures |Prefix(pid)| <= |r| && r[..|Prefix(pid)|] == Prefix(pid)
  {
    var attached := AttachProcessPidIfPresent(pid, text);
    TrimKeepsTrimmedPrefix(attached, Prefix(pid));
    Trim(attached)
  }

  /** Text without surrounding whitespace is written as attached. */
  lemma FormatOfTrimmedText(pid: int, text: string)
    requires text != [] && IsTrimmed(text)
    ensures Format(pid, text) == AttachProcessPidIfPresent(pid, text)
  {
    var r := AttachProcessPidIfPresent(pid, text);
    assert r[0] == Prefix(pid)[0];
    assert r[|r| - 1] == text[|text| - 1];
  }

  /** The padding after the prefix is blank. */
  lemma PaddingIsBlank(p: string)
    ensures AllWhitespace(PadEnd(p, PREFIX_WIDTH)[|p|..])
  {
    var padded := PadEnd(p, PREFIX_WIDTH);
    forall i | 0 <= i < |padded| - |p| ensures IsWhitespace(padded[|p|..][i]) {
      assert padded[|p|..][i] == padded[|p| + i] == ' ';
    }
  }

  /** Blank text leaves only the prefix: the padding is trimmed away. */
  lemma FormatOfBlankText(pid: int, text: string)
    requires AllWhitespace(text)
    ensures Format(pid, text) == Prefix(pid)
  {
    var p := Prefix(pid);
    var padded := PadEnd(p, PREFIX_WIDTH);
    var tail := padded[|p|..] + text;
    assert AttachProcessPidIfPresent(pid, text) == p + tail by {
      assert padded == p + padded[|p|..];
    }
    PaddingIsBlank(p);
    assert AllWhitespace(tail);
    assert (p + tail)[0] == '[' && !IsWhitespace((p + tail)[0]);
    assert TrimStart(p + tail) == p + tail;
    TrimEndDropsWhitespaceSuffix(p, tail);
    assert TrimEnd(p) == p;
  }

  /** Whether a line of `level` is written by a logger at `threshold`:
      never while logging is disabled, otherwise exactly when the level is
      at least the threshold, so errors always are. */
  predicate Emits(threshold: LogLevel, level: LogLevel, loggingDisabled: bool)
    ensures loggingDisabled ==> !Emits(threshold, level, loggingDisabled)
    ensures !loggingDisabled ==> (Emits(threshold, level, loggingDisabled) <==> threshold.Ordinal() <= level.Ordinal())
    ensures !loggingDisabled && level == ERROR ==> Emits(threshold, level, loggingDisabled)
  {
    !(threshold.Ordinal() > level.Ordinal() || loggingDisabled)
  }

  /** The default level INFO writes every level but DEBUG. */
  lemma DefaultLevelSuppressesOnlyDebug(level: LogLevel)
    ensures Emits(INFO, level, false) <==> level != DEBUG
  {
  }

  /** Lowering the logger's level never silences a line it wrote before. */
  lemma LowerLevelEmitsMore(lower: LogLevel, higher: LogLevel, level: LogLevel, loggingDisabled: bool)
    requires lower.Ordinal() <= higher.Ordinal()
    ensures Emits(higher, level, loggingDisabled) ==> Emits(lower, level, loggingDisabled)
  {
  }

  /** ERROR goes to the error channel in red, WARN yellow and DEBUG white to
      standard output; INFO is blue for a child process, cyan for the main
      one. */
  function Route(level: LogLevel, pid: int): (c: (Channel, Colour))
    ensures c.0 == Stderr <==> level == ERROR
    ensures level == INFO ==> (c.1 == Blue <==> pid != 0) && (c.1 == Cyan <==> pid == 0)
  {
    match level
    case ERROR => (Stderr, Red)
    case WARN => (Stdout, Yellow)
    case DEBUG => (Stdout, White)
    case INFO => if pid != 0 then (Stdout, Blue) else (Stdout, Cyan)
  }

  class Logger {
    var level: LogLevel
    /** Every line written so far, in order. */
    var emitted: seq<LogLine>

    constructor()
      ensures level == INFO && emitted == []
    {
      level := INFO;
      emitted := [];
    }

    method SetLevel(level: LogLevel)
      modifies this
      ensures this.level == level && emitted == old(emitted)
    {
      this.level := level;
    }

    /** printLogLine: write the trimmed, prefixed text on the level's channel
        unless the level is below the logger's or logging is disabled. */
    method PrintLogLine(pid: int, text: string, level: LogLevel, loggingDisabled: bool)
      modifies this
      ensures this.level == old(this.level)
      ensures Emits(this.level, level, loggingDisabled) ==>
        var route := Route(level, pid);
        emitted == old(emitted) + [LogLine(route.0, route.1, Format(pid, text))]
      ensures !Emits(this.level, level, loggingDisabled) ==> emitted == old(emitted)
    {
      if this.level.Ordinal() > level.Ordinal() || loggingDisabled {
        return;
      }
      var textWithPid := Trim(AttachProcessPidIfPresent(pid, text));
      var route := Route(level, pid);
      emitted := emitted + [LogLine(route.0, route.1, textWithPid)];
    }

    method Debug(text: string, pid: int, loggingDisabled: bool)
      modifies this
      ensures level == old(level)
      ensures emitted == old(emitted) + (if Emits(level, DEBUG, loggingDisabled)
        then [LogLine(Stdout, White, Format(pid, text))] else [])
    {
      PrintLogLine(pid, text, DEBUG, loggingDisabled);
    }

    method Info(text: string, pid: int, loggingDisabled: bool)
      modifies this
      ensures level == old(level)
      ensures emitted == old(emitted) + (if Emits(level, INFO, loggingDisabled)
        then [LogLine(Stdout, if pid != 0 then Blue else Cyan, Format(pid, text))] else [])
    {
      PrintLogLine(pid, text, INFO, loggingDisabled);
    }

    method Warn(text: string, pid: int, loggingDisabled: bool)
      modifies this
      ensures level == old(level)
      ensures emitted == old(emitted) + (if Emits(level, WARN, loggingDisabled)
        then [LogLine(Stdout, Yellow, Format(pid, text))] else [])
    {
      PrintLogLine(pid, text, WARN, loggingDisabled);
    }

    method Error(text: string, pid: int, loggingDisabled: bool)
      modifies this
      ensures level == old(level)
      ensures emitted == old(emitted) + (if Emits(level, ERROR, loggingDisabled)
        then [LogLine(Stderr, Red, Format(pid, text))] else [])
    {
      PrintLogLine(pid, text, ERROR, loggingDisabled);
    }
  }

  lemma ChildLine()
    ensures Format(42, "ready") == "[child-42]     ready"
  {
    assert NatToString(4) == "4";
    assert NatToString(42) == "42";
    assert Prefix(42) == "[child-42]";
    assert PadEnd("[child-42]", PREFIX_WIDTH) == "[child-42]" + seq(5, _ => ' ');
    assert seq(5, _ => ' ') == "     ";
    assert AttachProcessPidIfPresent(42, "ready") == "[child-42]     ready";
    FormatOfTrimmedText(42, "ready");
  }

  lemma MainLine()
    ensures Format(0, "boom") == "[main]         boom"
  {
    assert PadEnd("[main]", PREFIX_WIDTH) == "[main]" + seq(9, _ => ' ');
    assert seq(9, _ => ' ') == "         ";
    assert AttachProcessPidIfPresent(0, "boom") == "[main]         boom";
    FormatOfTrimmedText(0, "boom");
  }

  /** A fresh logger drops a debug line, writes an info line of child 42 in
      blue and an error of the main process in red; after SetLevel(ERROR) a
      warning is dropped. The dropped lines may say anything. */
  method LoggerScenario(debugText: string, warnText: string) returns (lines: seq<LogLine>)
    ensures lines == [
      LogLine(Stdout, Blue, "[child-42]     ready"),
      LogLine(Stderr, Red, "[main]         boom")]
  {
    ChildLine();
    MainLine();
    var logger := new Logger();
    assert !Emits(INFO, DEBUG, false) && !Emits(ERROR, WARN, false);
    logger.Debug(debugText, 0, false);
    assert logger.emitted == [];
    logger.Info("ready", 42, false);
    assert logger.emitted == [LogLine(Stdout, Blue, "[child-42]     ready")];
    logger.Error("boom", 0, false);
    assert logger.emitted == [LogLine(Stdout, Blue, "[child-42]     ready"), LogLine(Stderr, Red, "[main]         boom")];
    logger.SetLevel(ERROR);
    logger.Warn(warnText, 7, false);
    lines := logger.emitted;
  }
}
