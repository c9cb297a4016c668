/** Rendering a list of assignments as a command line and scanning it gives the assignments back. */
module RoundTrip {
  import opened Basics
  import opened Popl
  import opened CommandLine
  import opened ScanLaws

  /** How a group of one-letter switches may end. */
  datatype Suffix = NoSuffix | Glued(option: nat, value: string) | Apart(option: nat, value: string) | Bare(option: nat)

  /** What a user may put on the command line. */
  datatype Item =
    | Plain(text: string)                                    // text
    | LongValue(option: nat, value: string, joined: bool)    // --name=value or --name value
    | LongFlag(option: nat)                                  // --name
    | Group(switches: seq<nat>, suffix: Suffix)              // -abc, -abcnvalue, -abcn value

  predicate HasLongName(configs: seq<Config>, k: nat) {
    k < |configs| && configs[k].attribute != Inactive && configs[k].longName != "" && '=' !in configs[k].longName
  }

  predicate HasShortName(configs: seq<Config>, k: nat) {
    k < |configs| && configs[k].attribute != Inactive && ShortNameOf(configs[k]) != NUL
  }

  predicate AreSwitches(configs: seq<Config>, switches: seq<nat>) {
    forall i :: 0 <= i < |switches| ==>
      HasShortName(configs, switches[i]) && configs[switches[i]].kind == SwitchOption
  }

  predicate ValidSuffix(configs: seq<Config>, s: Suffix) {
    match s
    case NoSuffix => true
    case Glued(k, value) => HasShortName(configs, k) && configs[k].kind != SwitchOption && value != ""
    case Apart(k, _) => HasShortName(configs, k) && configs[k].kind == ValueOption
    case Bare(k) => HasShortName(configs, k) && configs[k].kind == ImplicitOption
  }

  predicate Valid(configs: seq<Config>, item: Item) {
    match item
    case Plain(text) => !IsPrefix("-", text)
    case LongValue(k, value, joined) =>
      HasLongName(configs, k)
      && if joined then configs[k].kind == ImplicitOption || (configs[k].kind == ValueOption && value != "")
         else configs[k].kind == ValueOption
    case LongFlag(k) => HasLongName(configs, k) && configs[k].kind != ValueOption
    case Group(switches, suffix) =>
      && AreSwitches(configs, switches)
      && ValidSuffix(configs, suffix)
      && var letters := GroupText(configs, switches, suffix);
      letters != "" && letters[0] != '-'
  }

  function SuffixText(configs: seq<Config>, s: Suffix): string
    requires ValidSuffix(configs, s)
  {
    match s
    case NoSuffix => ""
    case Glued(k, value) => [ShortNameOf(configs[k])] + value
    case Apart(k, _) => [ShortNameOf(configs[k])]
    case Bare(k) => [ShortNameOf(configs[k])]
  }

  function GroupText(configs: seq<Config>, switches: seq<nat>, suffix: Suffix): string
    requires AreSwitches(configs, switches) && ValidSuffix(configs, suffix)
  {
    if switches == [] then SuffixText(configs, suffix)
    else [ShortNameOf(configs[switches[0]])] + GroupText(configs, switches[1..], suffix)
  }

  function TakenBy(s: Suffix): seq<string> {
    if s.Apart? then [s.value] else []
  }

  function Render(configs: seq<Config>, item: Item): seq<string>
    requires Valid(configs, item)
  {
    match item
    case Plain(text) => [text]
    case LongValue(k, value, joined) =>
      if joined then [DASHES + configs[k].longName + "=" + value] else [DASHES + configs[k].longName, value]
    case LongFlag(k) => [DASHES + configs[k].longName]
    case Group(switches, suffix) => ["-" + GroupText(configs, switches, suffix)] + TakenBy(suffix)
  }

  function RenderAll(configs: seq<Config>, items: seq<Item>): seq<string>
    requires forall i :: i in items ==> Valid(configs, i)
  {
    if items == [] then [] else Render(configs, items[0]) + RenderAll(configs, items[1..])
  }

  // What the items mean.

  function SwitchHits(switches: seq<nat>): seq<Hit> {
    seq(|switches|, i requires 0 <= i < |switches| => Hit(switches[i], ""))
  }

  function SuffixHits(s: Suffix): seq<Hit> {
    match s
    case NoSuffix => []
    case Bare(k) => [Hit(k, "")]
    case _ => [Hit(s.option, s.value)]
  }

  function AssignmentsOf(item: Item): seq<Hit> {
    match item
    case Plain(_) => []
    case LongValue(k, value, _) => [Hit(k, value)]
    case LongFlag(k) => [Hit(k, "")]
    case Group(switches, suffix) => SwitchHits(switches) + SuffixHits(suffix)
  }

  /** All assignments of the items, in order. */
  function Assignments(items: seq<Item>): seq<Hit> {
    if items == [] then [] else AssignmentsOf(items[0]) + Assignments(items[1..])
  }

  function PlainTexts(items: seq<Item>): seq<string> {
    if items == [] then [] else (if items[0].Plain? then [items[0].text] else []) + PlainTexts(items[1..])
  }

  ghost predicate Reads(e: Event, item: Item) {
    HitsOf(e) == AssignmentsOf(item) && UnknownOf(e) == [] && NonOptionsOf(e) == if item.Plain? then [item.text] else []
  }

  lemma SuffixScans(configs: seq<Config>, token: string, suffix: Suffix, rest: seq<string>)
    requires DistinctNames(configs) && ValidSuffix(configs, suffix)
    ensures Letters(configs, token, SuffixText(configs, suffix), TakenBy(suffix) + rest)
            == Cluster(token, SuffixHits(suffix), false, TakenBy(suffix))
  {
    if suffix != NoSuffix {
      FoundByName(configs, suffix.option);
      assert SuffixText(configs, suffix)[1..] == if suffix.Glued? then suffix.value else "";
    }
  }

  lemma {:induction false} GroupScans(configs: seq<Config>, token: string, switches: seq<nat>, suffix: Suffix,
                                      rest: seq<string>)
    requires DistinctNames(configs) && AreSwitches(configs, switches) && ValidSuffix(configs, suffix)
    ensures Letters(configs, token, GroupText(configs, switches, suffix), TakenBy(suffix) + rest)
            == Cluster(token, SwitchHits(switches) + SuffixHits(suffix), false, TakenBy(suffix))
    decreases |switches|
  {
    if switches == [] {
      SuffixScans(configs, token, suffix, rest);
      assert SwitchHits(switches) + SuffixHits(suffix) == SuffixHits(suffix);
    } else {
      var k, more := switches[0], switches[1..];
      FoundByName(configs, k);
      GroupScans(configs, token, more, suffix, rest);
      SwitchScans(configs, token, k, GroupText(configs, more, suffix), TakenBy(suffix) + rest);
      SwitchHitsUnfold(switches, SuffixHits(suffix));
    }
  }

  lemma SwitchHitsUnfold(switches: seq<nat>, tail: seq<Hit>)
    requires switches != []
    ensures SwitchHits(switches) + tail == [Hit(switches[0], "")] + (SwitchHits(switches[1..]) + tail)
  {
  }

  lemma SwitchScans(configs: seq<Config>, token: string, k: nat, letters: string, rest: seq<string>)
    requires HasShortName(configs, k) && configs[k].kind == SwitchOption
    requires FindShort(configs, ShortNameOf(configs[k])) == k
    ensures var more := Letters(configs, token, letters, rest);
            Letters(configs, token, [ShortNameOf(configs[k])] + letters, rest)
            == Cluster(token, [Hit(k, "")] + more.hits, more.unknown, more.taken)
  {
    assert ([ShortNameOf(configs[k])] + letters)[1..] == letters;
  }

  lemma LongNameSplits(name: string, value: string)
    requires '=' !in name
    ensures Find(name + "=" + value, '=', 0) == |name|
    ensures (name + "=" + value)[..|name|] == name && (name + "=" + value)[|name| + 1..] == value
    ensures Find(name, '=', 0) == |name|
  {
    var s := name + "=" + value;
    assert s[|name|] == '=';
    assert forall i :: 0 <= i < |name| ==> s[i] == name[i];
  }

  lemma LongToken(text: string)
    requires text != ""
    ensures var token := DASHES + text; token != DASHES && IsPrefix(DASHES, token) && token[2..] == text
  {
    assert |DASHES + text| > 2;
  }

  lemma LongScans(configs: seq<Config>, item: Item, rest: seq<string>)
    requires DistinctNames(configs) && Valid(configs, item) && (item.LongValue? || item.LongFlag?)
    ensures var e := First(configs, Render(configs, item) + rest);
            Tokens(e) == Render(configs, item) && Reads(e, item)
  {
    var name := configs[item.option].longName;
    var args := Render(configs, item) + rest;
    FoundByName(configs, item.option);
    LongNameSplits(name, if item.LongValue? then item.value else "");
    if item.LongValue? && item.joined {
      LongToken(name + "=" + item.value);
      assert args[0] == DASHES + (name + "=" + item.value);
    } else {
      LongToken(name);
      assert args[0] == DASHES + name && name[..|name|] == name;
      assert item.LongValue? ==> args[1] == item.value;
    }
  }

  lemma GroupItemScans(configs: seq<Config>, item: Item, rest: seq<string>)
    requires DistinctNames(configs) && Valid(configs, item) && item.Group?
    ensures var e := First(configs, Render(configs, item) + rest);
            Tokens(e) == Render(configs, item) && Reads(e, item)
  {
    var letters := GroupText(configs, item.switches, item.suffix);
    var args := Render(configs, item) + rest;
    var token := "-" + letters;
    assert args[0] == token && args[1..] == TakenBy(item.suffix) + rest;
    assert token[1..] == letters && token[..1] == "-" && token[1] != '-';
    assert !IsPrefix(DASHES, token) by {
      assert token[..2][1] != DASHES[1];
    }
    GroupScans(configs, token, item.switches, item.suffix, rest);
  }

  lemma NoDashNoDashes(s: string)
    requires !IsPrefix("-", s)
    ensures !IsPrefix(DASHES, s)
  {
    if |s| >= 2 {
      assert s[..1] == s[..2][..1];
    }
  }

  lemma ItemScans(configs: seq<Config>, item: Item, rest: seq<string>)
    requires DistinctNames(configs) && Valid(configs, item)
    ensures var e := First(configs, Render(configs, item) + rest);
            Tokens(e) == Render(configs, item) && Reads(e, item)
  {
    match item
    case Plain(text) =>
      NoDashNoDashes(text);
    case Group(_, _) => GroupItemScans(configs, item, rest);
    case _ => LongScans(configs, item, rest);
  }

  lemma {:induction false} RenderedItemsScan(configs: seq<Config>, items: seq<Item>)
    requires DistinctNames(configs) && forall i :: i in items ==> Valid(configs, i)
    ensures var events := Events(configs, RenderAll(configs, items));
            && AllHits(events) == Assignments(items)
            && NonOptionTokens(events) == PlainTexts(items)
            && UnknownTokens(events) == []
  {
    if items == [] {
    } else {
      var rest := RenderAll(configs, items[1..]);
      var args := RenderAll(configs, items);
      ItemScans(configs, items[0], rest);
      RenderedItemsScan(configs, items[1..]);
      EventsUnfold(configs, args);
      var e := First(configs, args);
      assert args[|Tokens(e)|..] == rest;
      assert ([e] + Events(configs, rest))[1..] == Events(configs, rest);
    }
  }

  /** For options with distinct names: the rendering of any list of items is accepted exactly when
      every value can be read by its option; then each option has gained exactly its values, in
      order, nothing is unknown, the plain texts are the non-option arguments, and every unaliased
      bound variable holds the last value of its option, or its default. */
  lemma CommandLineRoundTrip(p: Parser, items: seq<Item>)
    requires var configs := Configs(p.entries);
             DistinctNames(configs) && forall i :: i in items ==> Valid(configs, i)
    ensures var r := Scan(p, RenderAll(Configs(p.entries), items));
            && ParseArgs(p, RenderAll(Configs(p.entries), items)) == CheckRequired(r)
            && (r.error.None? <==> Readable(p.entries, Assignments(items)))
            && (r.error.None? ==>
                  && Gained(p, r.parser, Assignments(items))
                  && r.parser.unknown == p.unknown
                  && r.parser.nonOptions == p.nonOptions + PlainTexts(items)
                  && forall k :: 0 <= k < |p.entries| && Unaliased(p, k) && BindingHolds(p, k) ==>
                       BindingHolds(r.parser, k))
  {
    var configs := Configs(p.entries);
    var events := Events(configs, RenderAll(configs, items));
    RenderedItemsScan(configs, items);
    Ledger(p, events);
    forall k | 0 <= k < |p.entries| && Unaliased(p, k) && BindingHolds(p, k)
      ensures BindingHolds(ExecuteAll(p, events).parser, k)
    {
      ScanBinds(p, events, k);
    }
    assert p.unknown + [] == p.unknown;
  }

  /** A text without NUL given to a string option becomes its value unchanged. */
  lemma TextIsKept(e: Entry, value: string)
    requires e.config.kind != SwitchOption && e.config.reader == ReadText && value != "" && NUL !in value
    ensures Interpret(e, CString(value)) == (Some(Text(value)), None)
  {
    assert value[..|value|] == value;
  }
}
