/**
 * Generation of a Java class whose `MAP_SUPPLIER` builds a map from
 * `"<event>#<setting>"` to the setting's value, out of the map the `.jfc`
 * reader fills. The platform line separator is a parameter, and writing
 * the file is not modelled.
 */
module JfrSettingsAsMapClassGenerator {
  import opened Wrappers
  import opened JavaLang
  import opened Setting
  import opened JfcParser

  const MAP_PUT_TEMPLATE: string := "MAP_PUT"
  const CLASS_NAME: string := "CLASS_NAME"

  /**
   * The text of the template before `CLASS_NAME`, between the markers, and
   * after `MAP_PUT`, line by line. The two longest lines are written in
   * several literals: the verifier decides which characters a literal holds
   * (`TemplateSeparators`, `MidLacksC`) only for short literals.
   */
  const HEAD: string :=
    "import java.util.HashMap;\n" +
    "import java.util.Map;\n" +
    "import java.util.function.Supplier;\n" +
    "\n" +
    "public class "
  const MID: string :=
    " {\n" +
    "\n" +
    "    public static " + "Supplier<Map<String, String>>  " + "MAP_SUPPLIER = () -> {\n" +
    "\n" +
    "        Map<String, String> " + "settingsAsMap = new HashMap<>();\n" +
    "\n"
  const TAIL: string :=
    "        return settingsAsMap;\n" +
    "    };\n" +
    "\n" +
    "}"

  const MAP_SUPPLIER_TEMPLATE: string := HEAD + CLASS_NAME + MID + MAP_PUT_TEMPLATE + TAIL

  /** The indentation of each put line. */
  const HEADER: string := "\t\t"

  /** The statement for one setting, with names and value inserted verbatim (null prints as `null`). */
  function PutStatement(eventName: JString, setting: Setting): string {
    "settingsAsMap." + PutCall(eventName, setting) + ";"
  }

  /** The call inside a put line: key and value quoted, inserted without escaping. */
  function PutCall(eventName: JString, setting: Setting): string {
    "put(\"" + Show(eventName) + "#" + Show(setting.name) + "\",\"" + Show(setting.value) + "\")"
  }

  function PutLine(eventName: JString, setting: Setting, lineSeparator: string): string {
    HEADER + PutStatement(eventName, setting) + lineSeparator
  }

  /** One put line per setting, in list order. */
  function SettingLines(eventName: JString, settings: seq<Setting>, lineSeparator: string): string
    decreases |settings|
  {
    if settings == [] then []
    else SettingLines(eventName, settings[..|settings| - 1], lineSeparator) + PutLine(eventName, settings[|settings| - 1], lineSeparator)
  }

  /** Each event's put lines followed by one more line separator, in map order. */
  function PutBlock(entries: Entries, lineSeparator: string): string
    decreases |entries|
  {
    if entries == [] then []
    else
      var last := entries[|entries| - 1];
      PutBlock(entries[..|entries| - 1], lineSeparator) + SettingLines(last.0, last.1, lineSeparator) + lineSeparator
  }

  /**
   * `generate`, up to the file write: the put block built event by event and
   * setting by setting, then `CLASS_NAME` and `MAP_PUT` substituted in turn.
   * The result is the template with the class name in place (any `MAP_PUT`
   * in the class name also receives the block) and the block in place.
   */
  method Generate(settingsByEventName: Entries, className: string, lineSeparator: string) returns (content: string)
    ensures var block := PutBlock(settingsByEventName, lineSeparator);
      content == HEAD + Replace(className, MAP_PUT_TEMPLATE, block) + MID + block + TAIL
  {
    var mapPutCode := "";
    for i := 0 to |settingsByEventName|
      invariant mapPutCode == PutBlock(settingsByEventName[..i], lineSeparator)
    {
      var eventName := settingsByEventName[i].0;
      var settings := settingsByEventName[i].1;
      ghost var before := mapPutCode;
      for j := 0 to |settings|
        invariant mapPutCode == before + SettingLines(eventName, settings[..j], lineSeparator)
      {
        ghost var previous := mapPutCode;
        mapPutCode := mapPutCode + (HEADER + PutStatement(eventName, settings[j]));
        mapPutCode := mapPutCode + lineSeparator;
        SettingLineAppended(before, eventName, settings, j, lineSeparator, previous, mapPutCode);
      }
      ghost var lines := mapPutCode;
      mapPutCode := mapPutCode + lineSeparator;
      EventBlockAppended(settingsByEventName, i, lineSeparator, before, lines, mapPutCode);
    }
    assert settingsByEventName[..|settingsByEventName|] == settingsByEventName;
    content := Replace(Replace(MAP_SUPPLIER_TEMPLATE, CLASS_NAME, className), MAP_PUT_TEMPLATE, mapPutCode);
    TemplateFilled(className, mapPutCode);
  }

  lemma SettingLineAppended(before: string, eventName: JString, settings: seq<Setting>, j: nat, lineSeparator: string,
                            previous: string, now: string)
    requires j < |settings|
    requires previous == before + SettingLines(eventName, settings[..j], lineSeparator)
    requires now == previous + (HEADER + PutStatement(eventName, settings[j])) + lineSeparator
    ensures now == before + SettingLines(eventName, settings[..j + 1], lineSeparator)
  {
    var line := HEADER + PutStatement(eventName, settings[j]);
    var lines := SettingLines(eventName, settings[..j], lineSeparator);
    assert settings[..j + 1][..j] == settings[..j];
    assert SettingLines(eventName, settings[..j + 1], lineSeparator) == lines + (line + lineSeparator);
    AppendAssociates(before, lines, line);
    AppendAssociates(before + lines, line, lineSeparator);
    AppendAssociates(before, lines + line, lineSeparator);
    AppendAssociates(lines, line, lineSeparator);
  }

  lemma AppendAssociates(a: string, b: string, c: string)
    ensures a + b + c == a + (b + c)
  {
  }

  lemma EventBlockAppended(entries: Entries, i: nat, lineSeparator: string, before: string, lines: string, now: string)
    requires i < |entries|
    requires before == PutBlock(entries[..i], lineSeparator)
    requires lines == before + SettingLines(entries[i].0, entries[i].1[..|entries[i].1|], lineSeparator)
    requires now == lines + lineSeparator
    ensures now == PutBlock(entries[..i + 1], lineSeparator)
  {
    assert entries[i].1[..|entries[i].1|] == entries[i].1;
    assert entries[..i + 1][..i] == entries[..i];
  }

  // ---------------------------------------------------------------------------
  // What the put block holds
  // ---------------------------------------------------------------------------

  /** The lines of consecutive runs of settings follow each other. */
  lemma {:induction false} SettingLinesAppend(eventName: JString, a: seq<Setting>, b: seq<Setting>, lineSeparator: string)
    ensures SettingLines(eventName, a + b, lineSeparator)
         == SettingLines(eventName, a, lineSeparator) + SettingLines(eventName, b, lineSeparator)
    decreases |b|
  {
    if b == [] {
      assert a + b == a;
    } else {
      var last := b[|b| - 1];
      assert (a + b)[..|a + b| - 1] == a + b[..|b| - 1];
      SettingLinesAppend(eventName, a, b[..|b| - 1], lineSeparator);
      AppendAssociates(SettingLines(eventName, a, lineSeparator), SettingLines(eventName, b[..|b| - 1], lineSeparator),
                       PutLine(eventName, last, lineSeparator));
    }
  }

  /** The blocks of consecutive runs of events follow each other, in map order. */
  lemma {:induction false} PutBlockAppend(a: Entries, b: Entries, lineSeparator: string)
    ensures PutBlock(a + b, lineSeparator) == PutBlock(a, lineSeparator) + PutBlock(b, lineSeparator)
    decreases |b|
  {
    if b == [] {
      assert a + b == a;
    } else {
      var last := b[|b| - 1];
      assert (a + b)[..|a + b| - 1] == a + b[..|b| - 1];
      PutBlockAppend(a, b[..|b| - 1], lineSeparator);
      var lines := SettingLines(last.0, last.1, lineSeparator);
      AppendAssociates(PutBlock(a, lineSeparator), PutBlock(b[..|b| - 1], lineSeparator), lines);
      AppendAssociates(PutBlock(a, lineSeparator), PutBlock(b[..|b| - 1], lineSeparator) + lines, lineSeparator);
    }
  }

  /** Each setting has its own put line among its event's lines. */
  lemma LineInSettingLines(eventName: JString, settings: seq<Setting>, lineSeparator: string, j: nat)
    requires j < |settings|
    ensures Contains(SettingLines(eventName, settings, lineSeparator), PutLine(eventName, settings[j], lineSeparator))
  {
    var line := PutLine(eventName, settings[j], lineSeparator);
    assert settings == settings[..j] + [settings[j]] + settings[j + 1..];
    SettingLinesAppend(eventName, settings[..j] + [settings[j]], settings[j + 1..], lineSeparator);
    SettingLinesAppend(eventName, settings[..j], [settings[j]], lineSeparator);
    assert [settings[j]][..0] == [];
    assert SettingLines(eventName, [settings[j]], lineSeparator) == line;
    ContainsItself(line);
    ContainsInfix(SettingLines(eventName, settings[..j], lineSeparator), line,
                  SettingLines(eventName, settings[j + 1..], lineSeparator), line);
  }

  /** Each event's lines are in the block. */
  lemma LinesInBlock(entries: Entries, lineSeparator: string, i: nat)
    requires i < |entries|
    ensures Contains(PutBlock(entries, lineSeparator), SettingLines(entries[i].0, entries[i].1, lineSeparator))
  {
    var before, entry, after := entries[..i], entries[i], entries[i + 1..];
    var lines := SettingLines(entry.0, entry.1, lineSeparator);
    assert entries == before + [entry] + after;
    PutBlockAppend(before + [entry], after, lineSeparator);
    PutBlockAppend(before, [entry], lineSeparator);
    PutBlockSingle(entry, lineSeparator);
    ContainsItself(lines);
    ContainsInfix(PutBlock(before, lineSeparator), lines, lineSeparator + PutBlock(after, lineSeparator), lines);
    AppendAssociates(PutBlock(before, lineSeparator) + lines, lineSeparator, PutBlock(after, lineSeparator));
  }

  lemma PutBlockSingle(entry: (JString, seq<Setting>), lineSeparator: string)
    ensures PutBlock([entry], lineSeparator) == SettingLines(entry.0, entry.1, lineSeparator) + lineSeparator
  {
    assert [entry][..0] == [];
  }

  /** Each setting of each event has its own put line in the block. */
  lemma PutLineInBlock(entries: Entries, lineSeparator: string, i: nat, j: nat)
    requires i < |entries| && j < |entries[i].1|
    ensures Contains(PutBlock(entries, lineSeparator), PutLine(entries[i].0, entries[i].1[j], lineSeparator))
  {
    LinesInBlock(entries, lineSeparator, i);
    LineInSettingLines(entries[i].0, entries[i].1, lineSeparator, j);
    ContainsTransitive(PutBlock(entries, lineSeparator), SettingLines(entries[i].0, entries[i].1, lineSeparator),
                       PutLine(entries[i].0, entries[i].1[j], lineSeparator));
  }

  /**
   * The generated class holds `put("<event>#<name>","<value>")` for each
   * setting of each event, names and value as they are.
   */
  lemma SettingPutGenerated(entries: Entries, className: string, lineSeparator: string, i: nat, j: nat)
    requires i < |entries| && j < |entries[i].1|
    ensures var block := PutBlock(entries, lineSeparator);
      var s := entries[i].1[j];
      Contains(HEAD + Replace(className, MAP_PUT_TEMPLATE, block) + MID + block + TAIL,
               "put(\"" + Show(entries[i].0) + "#" + Show(s.name) + "\",\"" + Show(s.value) + "\")")
  {
    var block := PutBlock(entries, lineSeparator);
    var call := PutCall(entries[i].0, entries[i].1[j]);
    var line := PutLine(entries[i].0, entries[i].1[j], lineSeparator);
    PutLineInBlock(entries, lineSeparator, i, j);
    CallInLine(entries[i].0, entries[i].1[j], lineSeparator);
    ContainsTransitive(block, line, call);
    ContainsInfix(HEAD + Replace(className, MAP_PUT_TEMPLATE, block) + MID, block, TAIL, call);
  }

  lemma CallInLine(eventName: JString, setting: Setting, lineSeparator: string)
    ensures Contains(PutLine(eventName, setting, lineSeparator), PutCall(eventName, setting))
  {
    var call := PutCall(eventName, setting);
    var front, back := HEADER + "settingsAsMap.", ";" + lineSeparator;
    assert PutLine(eventName, setting, lineSeparator) == front + call + back;
    ContainsItself(call);
    ContainsInfix(front, call, back, call);
  }

  lemma ContainsItself(t: string)
    ensures Contains(t, t)
  {
    assert t[..|t|] == t;
  }

  lemma ContainsTransitive(s: string, m: string, t: string)
    requires Contains(s, m) && Contains(m, t)
    ensures Contains(s, t)
  {
    var i := ContainsWitness(s, m);
    var k := ContainsWitness(m, t);
    forall p | 0 <= p < |t|
      ensures s[i + k + p] == t[p]
    {
      assert s[i..i + |m|][k + p] == m[k + p];
      assert m[k..k + |t|][p] == m[k + p];
    }
    assert s[i + k..i + k + |t|] == t;
    ContainsAt(s, t, i + k);
  }

  /** Without escaping, a quote-comma-quote moved from the value into the name gives the same statement. */
  lemma PutStatementAmbiguous(eventName: JString, name: string, middle: string, value: string)
    ensures PutStatement(eventName, Setting(Some(name), Some(middle + "\",\"" + value)))
         == PutStatement(eventName, Setting(Some(name + "\",\"" + middle), Some(value)))
  {
  }

  // ---------------------------------------------------------------------------
  // The two substitutions
  // ---------------------------------------------------------------------------

  /** The fixed pieces of the template meet the markers at blanks and line breaks, which no marker holds. */
  lemma TemplateSeparators()
    ensures |HEAD| > 0 && HEAD[|HEAD| - 1] == ' '
    ensures |MID| >= 2 && MID[0] == ' ' && MID[|MID| - 1] == '\n'
    ensures |TAIL| > 0 && TAIL[0] == ' '
    ensures ' ' !in CLASS_NAME && '\n' !in CLASS_NAME && ' ' !in MAP_PUT_TEMPLATE && '\n' !in MAP_PUT_TEMPLATE
  {
  }

  // `C` is in `CLASS_NAME` and `T` in `MAP_PUT`, but neither occurs in the template's fixed text.

  lemma HeadLacksC()
    ensures 'C' !in HEAD
  {
  }

  lemma HeadLacksT()
    ensures 'T' !in HEAD
  {
  }

  lemma MidLacksC()
    ensures 'C' !in MID
  {
  }

  lemma MidLacksT()
    ensures 'T' !in MID
  {
  }

  lemma TailLacksC()
    ensures 'C' !in TAIL
  {
  }

  lemma TailLacksT()
    ensures 'T' !in TAIL
  {
  }

  /** `replace` on a text laid out as pieces that meet at separators works piece by piece. */
  lemma ReplacePieces(head: string, x: string, mid: string, y: string, tail: string, target: string, replacement: string)
    requires target != [] && ' ' !in target && '\n' !in target
    ensures Replace(head + [' '] + (x + [' '] + (mid + ['\n'] + (y + [' '] + tail))), target, replacement)
         == Replace(head, target, replacement) + [' '] + (Replace(x, target, replacement) + [' '] +
              (Replace(mid, target, replacement) + ['\n'] + (Replace(y, target, replacement) + [' '] + Replace(tail, target, replacement))))
  {
    ReplaceAround(y, ' ', tail, target, replacement);
    ReplaceAround(mid, '\n', y + [' '] + tail, target, replacement);
    ReplaceAround(x, ' ', mid + ['\n'] + (y + [' '] + tail), target, replacement);
    ReplaceAround(head, ' ', x + [' '] + (mid + ['\n'] + (y + [' '] + tail)), target, replacement);
  }

  /** A piece lacking a letter of the target is left alone. */
  lemma KeptPiece(piece: string, target: string, replacement: string, letter: char)
    requires letter in target && letter !in piece
    ensures Replace(piece, target, replacement) == piece
  {
    MissingCharNotContained(piece, target, letter);
    ReplaceAbsent(piece, target, replacement);
  }

  /**
   * `replace` on `head + x + mid + y + tail`, where the fixed pieces lack a
   * letter of the target and meet `x` and `y` at separators, only changes
   * `x` and `y`.
   */
  lemma ReplaceBetweenFixedPieces(head: string, x: string, mid: string, y: string, tail: string,
                                  target: string, replacement: string, letter: char)
    requires |head| > 0 && head[|head| - 1] == ' '
    requires |mid| >= 2 && mid[0] == ' ' && mid[|mid| - 1] == '\n'
    requires |tail| > 0 && tail[0] == ' '
    requires ' ' !in target && '\n' !in target
    requires letter in target && letter !in head && letter !in mid && letter !in tail
    ensures Replace(head + x + mid + y + tail, target, replacement)
         == head + Replace(x, target, replacement) + mid + Replace(y, target, replacement) + tail
  {
    var h, m, t := head[..|head| - 1], mid[1..|mid| - 1], tail[1..];
    assert head == h + [' '];
    assert mid == [' '] + m + ['\n'];
    assert tail == [' '] + t;
    Regroup(head, h, x, mid, m, y, tail, t);
    ReplacePieces(h, x, m, y, t, target, replacement);
    KeptPiece(h, target, replacement, letter);
    KeptPiece(m, target, replacement, letter);
    KeptPiece(t, target, replacement, letter);
    Regroup(head, h, Replace(x, target, replacement), mid, m, Replace(y, target, replacement), tail, t);
  }

  /** The layout `head + x + mid + y + tail` with the separators taken out of the fixed pieces. */
  lemma Regroup(head: string, h: string, x: string, mid: string, m: string, y: string, tail: string, t: string)
    requires head == h + [' '] && mid == [' '] + m + ['\n'] && tail == [' '] + t
    ensures head + x + mid + y + tail == h + [' '] + (x + [' '] + (m + ['\n'] + (y + [' '] + t)))
  {
    var r3 := y + [' '] + t;
    var r2 := m + ['\n'] + r3;
    var r1 := x + [' '] + r2;
    AppendAssociates(y, [' '], t);
    assert y + tail == r3;
    AppendAssociates([' '] + m, ['\n'], r3);
    AppendAssociates([' '], m, ['\n'] + r3);
    AppendAssociates(m, ['\n'], r3);
    assert mid + (y + tail) == [' '] + r2;
    AppendAssociates(x, [' '], r2);
    assert x + (mid + (y + tail)) == r1;
    AppendAssociates(h, [' '], r1);
    AppendAssociates(head + x + mid, y, tail);
    AppendAssociates(head + x, mid, y + tail);
    AppendAssociates(head, x, mid + (y + tail));
  }

  /** A marker on its own becomes its replacement. */
  lemma MarkerReplaced(target: string, replacement: string)
    requires target != []
    ensures Replace(target, target, replacement) == replacement
  {
    ReplaceHere([], target, replacement);
    ReplaceShort([], target, replacement);
    assert target + [] == target;
  }

  /** `replace(CLASS_NAME, className)`: the class name goes where the marker was, and nothing else changes. */
  lemma ClassNameFilled(className: string)
    ensures Replace(MAP_SUPPLIER_TEMPLATE, CLASS_NAME, className) == HEAD + className + MID + MAP_PUT_TEMPLATE + TAIL
  {
    TemplateSeparators();
    HeadLacksC();
    MidLacksC();
    TailLacksC();
    assert 'C' in CLASS_NAME;
    ReplaceBetweenFixedPieces(HEAD, CLASS_NAME, MID, MAP_PUT_TEMPLATE, TAIL, CLASS_NAME, className, 'C');
    MarkerReplaced(CLASS_NAME, className);
    ReplaceShort(MAP_PUT_TEMPLATE, CLASS_NAME, className);
  }

  /** `replace(MAP_PUT, block)`: the block goes where the marker was, and into the class name wherever it holds the marker. */
  lemma BlockFilled(className: string, block: string)
    ensures Replace(HEAD + className + MID + MAP_PUT_TEMPLATE + TAIL, MAP_PUT_TEMPLATE, block)
         == HEAD + Replace(className, MAP_PUT_TEMPLATE, block) + MID + block + TAIL
  {
    TemplateSeparators();
    HeadLacksT();
    MidLacksT();
    TailLacksT();
    assert 'T' in MAP_PUT_TEMPLATE;
    ReplaceBetweenFixedPieces(HEAD, className, MID, MAP_PUT_TEMPLATE, TAIL, MAP_PUT_TEMPLATE, block, 'T');
    MarkerReplaced(MAP_PUT_TEMPLATE, block);
  }

  /** The template with the class name and then the put block substituted. */
  lemma TemplateFilled(className: string, block: string)
    ensures Replace(Replace(MAP_SUPPLIER_TEMPLATE, CLASS_NAME, className), MAP_PUT_TEMPLATE, block)
         == HEAD + Replace(className, MAP_PUT_TEMPLATE, block) + MID + block + TAIL
  {
    ClassNameFilled(className);
    BlockFilled(className, block);
  }
}
