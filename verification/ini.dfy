/** Reading an ini file (OptionParser::parse(ini_filename)), given the contents of the file. */
module Ini {
  import opened Basics
  import opened Popl
  import opened CommandLine
  import opened ScanLaws

  const NEWLINE: char := '\n'

  /** std::isspace in the "C" locale. */
  predicate IsSpace(c: char) {
    c in [' ', '\t', '\n', '\U{0B}', '\U{0C}', '\r']
  }

  /** The blank, and the characters from tab to carriage return. */
  lemma SpaceInCLocale(c: char)
    ensures IsSpace(c) <==> c == ' ' || 9 <= c as int <= 13
  {
  }

  /** Where the line that begins at `pos` ends, and where the next one begins. */
  function LineEnd(content: string, pos: nat): (end: nat)
    requires pos <= |content|
    ensures pos <= end <= |content|
  {
    Find(content, NEWLINE, pos)
  }

  function NextLine(content: string, pos: nat): (next: nat)
    requires pos < |content|
    ensures pos < next <= |content|
  {
    var end := LineEnd(content, pos);
    if end < |content| then end + 1 else end
  }

  /** What std::getline yields from position `pos` on: no line follows a final newline. */
  function LinesFrom(content: string, pos: nat): seq<string>
    requires pos <= |content|
    decreases |content| - pos
  {
    if pos == |content| then []
    else [content[pos..LineEnd(content, pos)]] + LinesFrom(content, NextLine(content, pos))
  }

  function Lines(content: string): seq<string> {
    LinesFrom(content, 0)
  }

  function TrimLeft(s: string): string {
    if s != "" && IsSpace(s[0]) then TrimLeft(s[1..]) else s
  }

  function TrimRight(s: string): string {
    if s != "" && IsSpace(Last(s)) then TrimRight(Front(s)) else s
  }

  function Trim(s: string): string {
    TrimRight(TrimLeft(s))
  }

  datatype Meaning = Nothing | Section(name: string) | KeyValue(key: string, value: string)

  function Classify(line: string): Meaning {
    var s := Trim(line);
    if s == "" || s[0] == '#' then Nothing
    else if s[0] == '[' && Last(s) == ']' then Section(Trim(s[1..|s| - 1]))
    else
      var eq := Find(s, '=', 0);
      if eq == |s| || Trim(s[..eq]) == "" then Nothing
      else KeyValue(Trim(s[..eq]), Trim(s[eq + 1..]))
  }

  function FullKey(section: string, key: string): string {
    if section == "" then key else section + "." + key
  }

  /** The (key, value) pairs that lines deliver, starting in `section`. */
  function Deliveries(section: string, lines: seq<string>): seq<(string, string)>
    decreases |lines|
  {
    if lines == [] then []
    else
      match Classify(lines[0])
      case Nothing => Deliveries(section, lines[1..])
      case Section(name) => Deliveries(name, lines[1..])
      case KeyValue(key, value) => [(FullKey(section, key), value)] + Deliveries(section, lines[1..])
  }

  /** A pair goes to the active option of that long name, or its key to the unknown options. */
  function Give(p: Parser, pair: (string, string)): (r: Outcome)
    ensures |r.parser.entries| == |p.entries|
  {
    var configs := Configs(p.entries);
    match Active(configs, FindLong(configs, pair.0))
    case Some(k) => Deliver(p, Hit(k, pair.1), LongName)
    case None => Outcome(p.(unknown := p.unknown + [pair.0]), None)
  }

  function GiveAll(p: Parser, pairs: seq<(string, string)>): (r: Outcome)
    ensures |r.parser.entries| == |p.entries|
    decreases |pairs|
  {
    if pairs == [] then Outcome(p, None)
    else
      var r := Give(p, pairs[0]);
      if r.error.Some? then r else GiveAll(r.parser, pairs[1..])
  }

  function ParseIni(p: Parser, content: string): Outcome {
    GiveAll(p, Deliveries("", Lines(content)))
  }

  /** A pair acts on the parser like a long option that needs no further argument. */
  function PairEvent(configs: seq<Config>, pair: (string, string)): (e: Event)
    ensures HitsInRange(e, |configs|)
  {
    match Active(configs, FindLong(configs, pair.0))
    case Some(k) => Long(pair.0, Some(Hit(k, pair.1)), [])
    case None => Long(pair.0, None, [])
  }

  function PairEvents(configs: seq<Config>, pairs: seq<(string, string)>): seq<Event> {
    seq(|pairs|, i requires 0 <= i < |pairs| => PairEvent(configs, pairs[i]))
  }

  lemma {:induction false} GivesLikeEvents(p: Parser, pairs: seq<(string, string)>)
    ensures GiveAll(p, pairs) == ExecuteAll(p, PairEvents(Configs(p.entries), pairs))
    decreases |pairs|
  {
    if pairs == [] {
    } else {
      var configs := Configs(p.entries);
      var e := PairEvent(configs, pairs[0]);
      var r := Give(p, pairs[0]);
      assert r == Execute(p, e);
      assert PairEvents(configs, pairs)[1..] == PairEvents(configs, pairs[1..]);
      if r.error.None? {
        ExecuteGains(p, e);
        SameConfigs(p, r.parser);
        GivesLikeEvents(r.parser, pairs[1..]);
      }
    }
  }

  lemma GiveAllBinds(p: Parser, pairs: seq<(string, string)>, k: nat)
    requires k < |p.entries| && Unaliased(p, k) && BindingHolds(p, k)
    ensures BindingHolds(GiveAll(p, pairs).parser, k)
  {
    GivesLikeEvents(p, pairs);
    ScanBinds(p, PairEvents(Configs(p.entries), pairs), k);
  }

  lemma AllBindingsKept(p: Parser, pairs: seq<(string, string)>)
    ensures forall k :: 0 <= k < |p.entries| && Unaliased(p, k) && BindingHolds(p, k) ==>
              BindingHolds(GiveAll(p, pairs).parser, k)
  {
    forall k | 0 <= k < |p.entries| && Unaliased(p, k) && BindingHolds(p, k)
      ensures BindingHolds(GiveAll(p, pairs).parser, k)
    {
      GiveAllBinds(p, pairs, k);
    }
  }

  lemma IniLedger(p: Parser, pairs: seq<(string, string)>)
    ensures InLedger(p, GiveAll(p, pairs), PairEvents(Configs(p.entries), pairs))
  {
    GivesLikeEvents(p, pairs);
    Ledger(p, PairEvents(Configs(p.entries), pairs));
  }

  // ----- Round trip -----

  /** A line as a user may lay it out, with white space wherever it is allowed. */
  datatype Line =
    | Blank(w: string)
    | Comment(w: string, text: string)
    | Header(w1: string, w2: string, name: string, w3: string, w4: string)
    | Assignment(w1: string, key: string, w2: string, w3: string, value: string, w4: string)

  predicate AllSpace(w: string) {
    forall i :: 0 <= i < |w| ==> IsSpace(w[i])
  }

  predicate IsPadding(w: string) {
    AllSpace(w) && NEWLINE !in w
  }

  predicate IsTrimmed(s: string) {
    s == "" || (!IsSpace(s[0]) && !IsSpace(Last(s)))
  }

  predicate IsField(s: string) {
    IsTrimmed(s) && NEWLINE !in s
  }

  predicate Valid(line: Line) {
    match line
    case Blank(w) => IsPadding(w)
    case Comment(w, text) => IsPadding(w) && NEWLINE !in text
    case Header(w1, w2, name, w3, w4) =>
      IsPadding(w1) && IsPadding(w2) && IsField(name) && IsPadding(w3) && IsPadding(w4)
    case Assignment(w1, key, w2, w3, value, w4) =>
      && IsPadding(w1) && IsPadding(w2) && IsPadding(w3) && IsPadding(w4) && IsField(key) && IsField(value)
      && key != "" && '=' !in key && key[0] != '#' && key[0] != '['
  }

  function RenderLine(line: Line): string {
    match line
    case Blank(w) => w
    case Comment(w, text) => w + ("#" + text)
    case Header(w1, w2, name, w3, w4) => w1 + ("[" + (w2 + name + w3) + "]") + w4
    case Assignment(w1, key, w2, w3, value, w4) => w1 + ((key + w2) + "=" + (w3 + value)) + w4
  }

  function RenderFile(lines: seq<Line>): string {
    if lines == [] then "" else RenderLine(lines[0]) + [NEWLINE] + RenderFile(lines[1..])
  }

  /** The pairs that the lines are meant to deliver. */
  function Meant(section: string, lines: seq<Line>): seq<(string, string)>
    decreases |lines|
  {
    if lines == [] then []
    else
      match lines[0]
      case Header(_, _, name, _, _) => Meant(name, lines[1..])
      case Assignment(_, key, _, _, value, _) => [(FullKey(section, key), value)] + Meant(section, lines[1..])
      case _ => Meant(section, lines[1..])
  }

  lemma {:induction false} TrimLeftPadded(w: string, s: string)
    requires AllSpace(w) && (s == "" || !IsSpace(s[0]))
    ensures TrimLeft(w + s) == s
  {
    if w == "" {
      assert w + s == s;
    } else {
      assert (w + s)[0] == w[0] && (w + s)[1..] == w[1..] + s;
      TrimLeftPadded(w[1..], s);
    }
  }

  lemma {:induction false} TrimRightPadded(s: string, w: string)
    requires AllSpace(w) && (s == "" || !IsSpace(Last(s)))
    ensures TrimRight(s + w) == s
  {
    if w == "" {
      assert s + w == s;
    } else {
      assert Last(s + w) == Last(w) && Front(s + w) == s + Front(w);
      TrimRightPadded(s, Front(w));
    }
  }

  lemma TrimPadded(left: string, s: string, right: string)
    requires AllSpace(left) && AllSpace(right) && IsTrimmed(s)
    ensures Trim(left + s + right) == s
  {
    if s == "" {
      assert left + s + right == (left + right) + "";
      TrimLeftPadded(left + right, "");
      assert TrimRight("") == "";
    } else {
      assert left + s + right == left + (s + right);
      TrimLeftPadded(left, s + right);
      TrimRightPadded(s, right);
    }
  }

  lemma {:induction false} TrimRightKeepsHead(s: string)
    requires s != "" && !IsSpace(s[0])
    ensures TrimRight(s) != "" && TrimRight(s)[0] == s[0]
  {
    if !IsSpace(Last(s)) {
    } else {
      assert |s| > 1;
      TrimRightKeepsHead(Front(s));
    }
  }

  lemma HeaderMeans(line: Line)
    requires Valid(line) && line.Header?
    ensures Classify(RenderLine(line)) == Section(line.name)
  {
    var inner := line.w2 + line.name + line.w3;
    var core := "[" + inner + "]";
    TrimPadded(line.w1, core, line.w4);
    assert core[1..|core| - 1] == inner;
    TrimPadded(line.w2, line.name, line.w3);
  }

  lemma {:induction false} TrimLeftSplits(s: string) returns (w: string)
    ensures AllSpace(w) && s == w + TrimLeft(s) && (TrimLeft(s) == "" || !IsSpace(TrimLeft(s)[0]))
  {
    if s == "" || !IsSpace(s[0]) {
      return "";
    } else {
      var more := TrimLeftSplits(s[1..]);
      w := [s[0]] + more;
    }
  }

  lemma {:induction false} TrimRightSplits(s: string) returns (w: string)
    ensures AllSpace(w) && s == TrimRight(s) + w && (TrimRight(s) == "" || !IsSpace(Last(TrimRight(s))))
  {
    if s == "" || !IsSpace(Last(s)) {
      return "";
    } else {
      var more := TrimRightSplits(Front(s));
      w := more + [Last(s)];
    }
  }

  ghost predicate IsTrimOf(s: string, t: string) {
    exists left, right :: AllSpace(left) && AllSpace(right) && s == left + t + right
  }

  /** Trimming removes exactly the white space at both ends. */
  lemma TrimExactly(s: string, t: string)
    ensures IsTrimOf(s, t) && IsTrimmed(t) <==> t == Trim(s)
  {
    if IsTrimOf(s, t) && IsTrimmed(t) {
      var left, right :| AllSpace(left) && AllSpace(right) && s == left + t + right;
      TrimPadded(left, t, right);
    }
    var left := TrimLeftSplits(s);
    var right := TrimRightSplits(TrimLeft(s));
    assert s == left + Trim(s) + right;
    if TrimLeft(s) != "" {
      TrimRightKeepsHead(TrimLeft(s));
    }
  }

  lemma AssignmentSplits(left: string, right: string)
    requires '=' !in left
    ensures var core := left + "=" + right;
            Find(core, '=', 0) == |left| < |core| && core[..|left|] == left && core[|left| + 1..] == right
  {
    var core := left + "=" + right;
    assert core[|left|] == '=';
    assert forall i :: 0 <= i < |left| ==> core[i] == left[i];
  }

  ghost predicate SplitsAt(s: string, key: string, value: string) {
    '=' !in key && s == key + "=" + value
  }

  /** What one line does, whatever it holds. A comment, a blank line, and a line without a key do
      nothing; a line in brackets changes the section; any other line delivers its key, prefixed with
      the section if there is one, and its value. */
  lemma LineDelivers(section: string, line: string, rest: seq<string>, key: string, value: string)
    ensures var s := Trim(line);
            var deliveries, later := Deliveries(section, [line] + rest), Deliveries(section, rest);
            if s == "" || s[0] == '#' then deliveries == later
            else if s[0] == '[' && s[|s| - 1] == ']' then deliveries == Deliveries(Trim(s[1..|s| - 1]), rest)
            else if '=' !in s then deliveries == later
            else if SplitsAt(s, key, value) then
              if Trim(key) == "" then deliveries == later
              else deliveries == [(if section == "" then Trim(key) else section + "." + Trim(key), Trim(value))] + later
            else true
  {
    var s := Trim(line);
    assert ([line] + rest)[1..] == rest;
    if SplitsAt(s, key, value) {
      AssignmentSplits(key, value);
    }
  }

  /** What trimming leaves of a rendered assignment. */
  function AssignmentCore(line: Line): string
    requires line.Assignment?
  {
    (line.key + line.w2) + "=" + if line.value == "" then "" else line.w3 + line.value
  }

  lemma AssignmentTrims(line: Line)
    requires Valid(line) && line.Assignment?
    ensures var core := AssignmentCore(line);
            Trim(RenderLine(line)) == core && core[0] == line.key[0]
  {
    var core := AssignmentCore(line);
    assert core[0] == line.key[0];
    if line.value == "" {
      assert Last(core) == '=';
      assert RenderLine(line) == line.w1 + core + (line.w3 + line.w4);
      TrimPadded(line.w1, core, line.w3 + line.w4);
    } else {
      assert Last(core) == Last(line.value);
      TrimPadded(line.w1, core, line.w4);
    }
  }

  lemma KeyTrims(key: string, w: string)
    requires IsTrimmed(key) && AllSpace(w)
    ensures Trim(key + w) == key
  {
    TrimPadded("", key, w);
    assert "" + key + w == key + w;
  }

  lemma ValueTrims(w: string, value: string)
    requires IsTrimmed(value) && AllSpace(w)
    ensures Trim(w + value) == value && Trim("") == ""
  {
    TrimPadded(w, value, "");
    assert w + value + "" == w + value;
  }

  lemma AssignmentMeans(line: Line)
    requires Valid(line) && line.Assignment?
    ensures Classify(RenderLine(line)) == KeyValue(line.key, line.value)
  {
    var left := line.key + line.w2;
    var right := if line.value == "" then "" else line.w3 + line.value;
    AssignmentTrims(line);
    AssignmentSplits(left, right);
    KeyTrims(line.key, line.w2);
    ValueTrims(line.w3, line.value);
    assert AssignmentCore(line) == left + "=" + right;
  }

  lemma CommentMeans(line: Line)
    requires Valid(line) && (line.Blank? || line.Comment?)
    ensures Classify(RenderLine(line)) == Nothing
  {
    if line.Blank? {
      TrimLeftPadded(line.w, "");
      assert line.w + "" == line.w;
    } else {
      TrimLeftPadded(line.w, "#" + line.text);
      TrimRightKeepsHead("#" + line.text);
    }
  }

  lemma NoNewlineInside(line: Line)
    requires Valid(line)
    ensures NEWLINE !in RenderLine(line)
  {
  }

  lemma FindInSuffix(prefix: string, s: string, c: char, pos: nat)
    requires pos <= |s|
    ensures Find(prefix + s, c, |prefix| + pos) == |prefix| + Find(s, c, pos)
  {
    var whole := prefix + s;
    assert forall i :: 0 <= i < |s| ==> whole[|prefix| + i] == s[i];
    var i, j := Find(whole, c, |prefix| + pos), |prefix| + Find(s, c, pos);
    assert i < |whole| ==> s[i - |prefix|] == c;
    assert j < |whole| ==> whole[j] == c;
  }

  lemma {:induction false} LinesOfSuffix(prefix: string, s: string, pos: nat)
    requires pos <= |s|
    ensures LinesFrom(prefix + s, |prefix| + pos) == LinesFrom(s, pos)
    decreases |s| - pos
  {
    if pos == |s| {
    } else {
      var whole, end, next := prefix + s, LineEnd(s, pos), NextLine(s, pos);
      FindInSuffix(prefix, s, NEWLINE, pos);
      SliceOfConcat(prefix, s, pos, end);
      assert NextLine(whole, |prefix| + pos) == |prefix| + next;
      LinesOfSuffix(prefix, s, next);
      assert LinesFrom(whole, |prefix| + pos) == [s[pos..end]] + LinesFrom(whole, |prefix| + next);
    }
  }

  lemma FirstLine(line: string, rest: string)
    requires NEWLINE !in line
    ensures Lines(line + [NEWLINE] + rest) == [line] + Lines(rest)
  {
    var content := line + [NEWLINE] + rest;
    assert content[|line|] == NEWLINE;
    assert forall i :: 0 <= i < |line| ==> content[i] == line[i];
    assert LineEnd(content, 0) == |line| && content[0..|line|] == line;
    LinesOfSuffix(line + [NEWLINE], rest, 0);
  }

  lemma {:induction false} RenderedFileDelivers(section: string, lines: seq<Line>)
    requires forall i :: 0 <= i < |lines| ==> Valid(lines[i])
    ensures Deliveries(section, Lines(RenderFile(lines))) == Meant(section, lines)
    decreases |lines|
  {
    if lines == [] {
    } else {
      var line, rest := lines[0], lines[1..];
      NoNewlineInside(line);
      FirstLine(RenderLine(line), RenderFile(rest));
      var all := Lines(RenderFile(lines));
      assert all[0] == RenderLine(line) && all[1..] == Lines(RenderFile(rest));
      match line
      case Header(_, _, name, _, _) =>
        HeaderMeans(line);
        RenderedFileDelivers(name, rest);
      case Assignment(_, _, _, _, _, _) =>
        AssignmentMeans(line);
        RenderedFileDelivers(section, rest);
      case _ =>
        CommentMeans(line);
        RenderedFileDelivers(section, rest);
    }
  }

  /** A file with any layout, blank lines and comments is read as exactly the pairs it was rendered
      from, in file order, an empty section name leading back to keys without a prefix: reading
      succeeds exactly if every matched option can read its value, and then each option has gained
      its values in order, the other keys are unknown options, and bound variables are in step. */
  lemma IniRoundTrip(p: Parser, lines: seq<Line>)
    requires forall i :: 0 <= i < |lines| ==> Valid(lines[i])
    ensures var r := ParseIni(p, RenderFile(lines));
            && r == GiveAll(p, Meant("", lines))
            && InLedger(p, r, PairEvents(Configs(p.entries), Meant("", lines)))
            && forall k :: 0 <= k < |p.entries| && Unaliased(p, k) && BindingHolds(p, k) ==> BindingHolds(r.parser, k)
  {
    RenderedFileDelivers("", lines);
    IniLedger(p, Meant("", lines));
    AllBindingsKept(p, Meant("", lines));
  }

  /** The newline at the end of the file makes no difference. */
  lemma {:induction false} FinalNewlineIsOptional(section: string, content: string)
    ensures Deliveries(section, Lines(content + [NEWLINE])) == Deliveries(section, Lines(content))
    decreases |content|
  {
    var i := Find(content, NEWLINE, 0);
    if i == |content| {
      assert content + [NEWLINE] == content + [NEWLINE] + "";
      FirstLine(content, "");
      if content == "" {
        assert Classify("") == Nothing;
        assert Lines(content + [NEWLINE])[1..] == [];
      } else {
        assert content[0..i] == content && LinesFrom(content, |content|) == [];
        assert Lines(content) == [content] + [];
        assert Lines(content + [NEWLINE]) == [content] + Lines("") == [content];
      }
    } else {
      var line, rest := content[..i], content[i + 1..];
      assert content == line + [NEWLINE] + rest;
      assert content + [NEWLINE] == line + [NEWLINE] + (rest + [NEWLINE]);
      FirstLine(line, rest);
      FirstLine(line, rest + [NEWLINE]);
      var short, long := Lines(content), Lines(content + [NEWLINE]);
      assert short[1..] == Lines(rest) && long[1..] == Lines(rest + [NEWLINE]) && short[0] == long[0];
      FinalNewlineIsOptional(match Classify(line) case Section(name) => name case _ => section, rest);
    }
  }
}
