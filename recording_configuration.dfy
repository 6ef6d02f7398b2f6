/**
 * The three ways to configure which events a recording collects: a
 * predefined configuration name, the text of a `.jfc` file, or a map of
 * event settings. Each variant names the FlightRecorderMXBean operation that
 * receives it.
 */
module RecordingConfiguration {
  import opened Wrappers
  import opened JavaLang
  import opened Exceptions

  datatype RecordingConfiguration =
    | Predefined(name: string)                          // a configuration shipped with the JDK, such as "default"
    | JfcFile(content: string)                          // the text of a .jfc file
    | MapConfiguration(settings: map<string, string>)   // event settings such as "jdk.ObjectAllocationInNewTLAB#enabled"
  {
    /** The FlightRecorderMXBean operation that receives this kind of configuration. */
    function MbeanSetterFunction(): string
    {
      match this
      case Predefined(_) => "setPredefinedConfiguration"
      case JfcFile(_) => "setConfiguration"
      case MapConfiguration(_) => "setRecordingSettings"
    }

    /**
     * The name the MXBean backend passes to `setPredefinedConfiguration`: the
     * payload of a predefined configuration; the other variants have none.
     */
    function ConfigurationName(): (r: JString)
      ensures r.Some? <==> Predefined?
      ensures Predefined? ==> r == Some(name)
    {
      if Predefined? then Some(name) else None
    }
  }

  /** The JDK's `default` configuration, suitable for continuous recordings. */
  const DEFAULT_CONFIGURATION: RecordingConfiguration := Predefined("default")

  /** The JDK's `profile` configuration, which collects more events. */
  const PROFILE_CONFIGURATION: RecordingConfiguration := Predefined("profile")

  /** Each variant is sent to a different operation, so the setter name identifies the variant. */
  lemma SetterNameIdentifiesVariant(a: RecordingConfiguration, b: RecordingConfiguration)
    ensures a.MbeanSetterFunction() == b.MbeanSetterFunction() <==>
      (a.Predefined? && b.Predefined?) || (a.JfcFile? && b.JfcFile?) || (a.MapConfiguration? && b.MapConfiguration?)
  {
  }

  /** The two constants are predefined configurations sent to `setPredefinedConfiguration`. */
  lemma PredefinedConstants()
    ensures DEFAULT_CONFIGURATION.ConfigurationName() == Some("default")
    ensures PROFILE_CONFIGURATION.ConfigurationName() == Some("profile")
    ensures DEFAULT_CONFIGURATION.MbeanSetterFunction() == "setPredefinedConfiguration"
    ensures PROFILE_CONFIGURATION.MbeanSetterFunction() == "setPredefinedConfiguration"
  {
  }

  const NULL_CONFIGURATION_MESSAGE: string := "configuration cannot be null"

  /** `new PredefinedConfiguration(name)`: a null name is refused, any other (even empty) is kept as is. */
  function NewPredefined(configurationName: JString): (r: Result<RecordingConfiguration, Error>)
    ensures r.Success? <==> configurationName.Some?
    ensures r.Success? ==> r.value.Predefined? && r.value.name == configurationName.value
    ensures r.Failure? ==> r.error == NullPointer(NULL_CONFIGURATION_MESSAGE)
  {
    match configurationName
    case None => Failure(NullPointer(NULL_CONFIGURATION_MESSAGE))
    case Some(n) => Success(Predefined(n))
  }

  /** `new MapConfiguration(settings)`: a null map is refused, any other (even empty) is kept as is. */
  function NewMapConfiguration(configuration: Option<map<string, string>>): (r: Result<RecordingConfiguration, Error>)
    ensures r.Success? <==> configuration.Some?
    ensures r.Success? ==> r.value.MapConfiguration? && r.value.settings == configuration.value
    ensures r.Failure? ==> r.error == NullPointer(NULL_CONFIGURATION_MESSAGE)
  {
    match configuration
    case None => Failure(NullPointer(NULL_CONFIGURATION_MESSAGE))
    case Some(m) => Success(MapConfiguration(m))
  }

  /**
   * `new JfcFileConfiguration(stream)`: the stream's text, read line by
   * line and joined with no separator. A null stream is refused with
   * IllegalArgumentException before the null check of the payload is reached.
   */
  function NewJfcFile(configurationFile: Option<string>): (r: Result<RecordingConfiguration, Error>)
    ensures r.Success? <==> configurationFile.Some?
    ensures r.Success? ==> r.value.JfcFile? && r.value.content == WithoutLineBreaks(configurationFile.value)
    ensures r.Failure? ==> r.error == IllegalArgument("Null configuration provided")
  {
    match configurationFile
    case None => Failure(IllegalArgument("Null configuration provided"))
    case Some(text) =>
      LinesJoined(text);
      Success(JfcFile(ReadConfigurationFile(text)))
  }

  // ---------------------------------------------------------------- reading a .jfc file

  predicate IsLineBreak(c: char) {
    c == '\n' || c == '\r'
  }

  predicate NoLineBreak(s: string) {
    forall i :: 0 <= i < |s| ==> !IsLineBreak(s[i])
  }

  /** The index of the first line break at or after `i`, or the length of `s`. */
  function BreakIndex(s: string, i: nat): (j: nat)
    requires i <= |s|
    ensures i <= j <= |s| && (j < |s| ==> IsLineBreak(s[j]))
    ensures NoLineBreak(s[i..j])
    decreases |s| - i
  {
    if i == |s| || IsLineBreak(s[i]) then i else BreakIndex(s, i + 1)
  }

  /**
   * `BufferedReader.lines()`: a line ends at "\n", "\r" or "\r\n", which is
   * not part of it; text after the last terminator is a last line when it is
   * not empty.
   */
  function Lines(s: string): (lines: seq<string>)
    ensures forall k :: 0 <= k < |lines| ==> NoLineBreak(lines[k])
    decreases |s|
  {
    if s == [] then
      []
    else
      var i := BreakIndex(s, 0);
      if i == |s| then
        [s]
      else
        var next := if s[i] == '\r' && i + 1 < |s| && s[i + 1] == '\n' then i + 2 else i + 1;
        [s[..i]] + Lines(s[next..])
  }

  /** `readConfigurationFile` on the text of a non-null stream. */
  function ReadConfigurationFile(text: string): string
  {
    Concat(Lines(text))
  }

  /** The text with every carriage return and line feed removed. */
  function WithoutLineBreaks(s: string): string
  {
    if s == [] then [] else (if IsLineBreak(s[0]) then [] else [s[0]]) + WithoutLineBreaks(s[1..])
  }

  lemma {:induction false} WithoutLineBreaksAppend(a: string, b: string)
    ensures WithoutLineBreaks(a + b) == WithoutLineBreaks(a) + WithoutLineBreaks(b)
    decreases |a|
  {
    if a != [] {
      assert (a + b)[1..] == a[1..] + b;
      WithoutLineBreaksAppend(a[1..], b);
    } else {
      assert a + b == b;
    }
  }

  lemma {:induction false} WithoutLineBreaksKeeps(s: string)
    requires NoLineBreak(s)
    ensures WithoutLineBreaks(s) == s
    decreases |s|
  {
    if s != [] {
      WithoutLineBreaksKeeps(s[1..]);
    }
  }

  /**
   * Joining the lines of a stream with no separator drops exactly the line
   * terminators: the payload is the text without its carriage returns and
   * line feeds.
   */
  lemma {:induction false} LinesJoined(s: string)
    ensures ReadConfigurationFile(s) == WithoutLineBreaks(s)
    decreases |s|
  {
    if s != [] {
      var i := BreakIndex(s, 0);
      if i == |s| {
        assert s[0..i] == s;
        WithoutLineBreaksKeeps(s);
        assert Lines(s) == [s];
        assert Concat([s]) == s + Concat([]);
      } else {
        var next := if s[i] == '\r' && i + 1 < |s| && s[i + 1] == '\n' then i + 2 else i + 1;
        LinesJoined(s[next..]);
        assert Lines(s) == [s[..i]] + Lines(s[next..]);
        assert s[0..i] == s[..i];
        TerminatorBreaks(s, i, next);
        LineJoined(s, i, next, Lines(s[next..]));
      }
    }
  }

  /** A line terminator holds nothing but line breaks. */
  lemma TerminatorBreaks(s: string, i: nat, next: nat)
    requires i < |s| && IsLineBreak(s[i])
    requires next == if s[i] == '\r' && i + 1 < |s| && s[i + 1] == '\n' then i + 2 else i + 1
    ensures AllLineBreaks(s[i..next])
  {
    var terminator := s[i..next];
    forall k | 0 <= k < |terminator|
      ensures IsLineBreak(terminator[k])
    {
      assert terminator[k] == s[i + k];
    }
  }

  /** One line and its terminator, before lines already joined without their breaks. */
  lemma LineJoined(s: string, i: nat, next: nat, rest: seq<string>)
    requires i < next <= |s| && NoLineBreak(s[..i]) && AllLineBreaks(s[i..next])
    requires Lines(s) == [s[..i]] + rest && Concat(rest) == WithoutLineBreaks(s[next..])
    ensures ReadConfigurationFile(s) == WithoutLineBreaks(s)
  {
    assert ([s[..i]] + rest)[1..] == rest;
    SplitAtTerminator(s, i, next);
  }

  predicate AllLineBreaks(s: string) {
    forall k :: 0 <= k < |s| ==> IsLineBreak(s[k])
  }

  /** Removing line breaks from a line, its terminator and the rest keeps the line and drops the terminator. */
  lemma SplitAtTerminator(s: string, i: nat, next: nat)
    requires i < next <= |s| && NoLineBreak(s[..i]) && AllLineBreaks(s[i..next])
    ensures WithoutLineBreaks(s) == s[..i] + WithoutLineBreaks(s[next..])
  {
    ThreePieces(s, i, next);
    DropTerminator(s[..i], s[i..next], s[next..]);
  }

  lemma DropTerminator(line: string, terminator: string, rest: string)
    requires NoLineBreak(line) && AllLineBreaks(terminator)
    ensures WithoutLineBreaks(line + terminator + rest) == line + WithoutLineBreaks(rest)
  {
    WithoutLineBreaksAppend(line + terminator, rest);
    WithoutLineBreaksAppend(line, terminator);
    WithoutLineBreaksKeeps(line);
    WithoutLineBreaksDrops(terminator);
    assert line + [] == line;
  }

  lemma ThreePieces(s: string, i: nat, j: nat)
    requires i <= j <= |s|
    ensures s == s[..i] + s[i..j] + s[j..]
  {
  }

  lemma {:induction false} WithoutLineBreaksDrops(s: string)
    requires AllLineBreaks(s)
    ensures WithoutLineBreaks(s) == []
    decreases |s|
  {
    if s != [] {
      WithoutLineBreaksDrops(s[1..]);
    }
  }
}
