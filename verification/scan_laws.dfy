/** Laws of the command-line scan: how it composes, what a standalone "--" does, and that bound
    variables stay in step with their options. */
module ScanLaws {
  import opened Basics
  import opened Popl
  import opened CommandLine

  // ----- Composition -----

  /** An option that needed a value when the arguments ran out. */
  predicate Starved(configs: seq<Config>, e: Event)
    requires HitsInRange(e, |configs|)
  {
    match e
    case Long(_, hit, taken) =>
      hit.Some? && taken == [] && hit.value.argument == ""
      && ArgumentType(configs[hit.value.option]) == RequiredArgument
    case Cluster(_, hits, _, taken) =>
      hits != [] && taken == [] && Last(hits).argument == ""
      && ArgumentType(configs[Last(hits).option]) == RequiredArgument
    case _ => false
  }

  predicate Hungry(configs: seq<Config>, args: seq<string>) {
    args != [] &&
    var e := First(configs, args);
    if |Tokens(e)| == |args| then Starved(configs, e) else Hungry(configs, args[|Tokens(e)|..])
  }

  /** A terminator also copies what is appended to the command line. */
  function Extend(e: Event, post: seq<string>): Event {
    match e
    case Terminator(tail) => Terminator(tail + post)
    case _ => e
  }

  function ExtendAll(events: seq<Event>, post: seq<string>): seq<Event> {
    if events == [] then [] else [Extend(events[0], post)] + ExtendAll(events[1..], post)
  }

  lemma {:induction false} LettersExtend(configs: seq<Config>, token: string, opt: string, rest: seq<string>,
                                         post: seq<string>)
    ensures var e := Letters(configs, token, opt, rest);
            var e' := Letters(configs, token, opt, rest + post);
            if rest == [] && post != [] && Starved(configs, e) then e'.taken == [post[0]] else e' == e
  {
    if opt == "" {
    } else {
      LettersExtend(configs, token, opt[1..], rest, post);
      var more := Letters(configs, token, opt[1..], rest);
      var k := Active(configs, FindShort(configs, opt[0]));
      if k.Some? && ArgumentType(configs[k.value]) == NoArgument {
        var hits := [Hit(k.value, "")] + more.hits;
        assert more.hits != [] ==> Last(hits) == Last(more.hits);
      }
    }
  }

  lemma LongExtend(configs: seq<Config>, args: seq<string>, post: seq<string>)
    requires args != [] && IsPrefix(DASHES, args[0])
    ensures var e := LongEvent(configs, args);
            var e' := LongEvent(configs, args + post);
            if |args| == 1 && post != [] && Starved(configs, e) then |Tokens(e')| == 2 else e' == e
  {
    assert (args + post)[0] == args[0];
    assert |args| > 1 ==> (args + post)[1] == args[1];
  }

  lemma FirstExtend(configs: seq<Config>, args: seq<string>, post: seq<string>)
    requires args != []
    ensures var e := First(configs, args);
            var e' := First(configs, args + post);
            if |args| == 1 && post != [] && Starved(configs, e) then |Tokens(e')| == 2 else e' == Extend(e, post)
  {
    var arg := args[0];
    assert (args + post)[0] == arg && (args + post)[1..] == args[1..] + post;
    if arg != DASHES && IsPrefix(DASHES, arg) {
      LongExtend(configs, args, post);
    } else if arg != DASHES && IsPrefix("-", arg) {
      LettersExtend(configs, arg, arg[1..], args[1..], post);
    }
  }

  lemma SameHeadSameTail<T>(a: T, x: seq<T>, b: T, y: seq<T>)
    ensures [a] + x == [b] + y <==> a == b && x == y
  {
    assert ([a] + x)[1..] == x && ([b] + y)[1..] == y;
    assert ([a] + x)[0] == a && ([b] + y)[0] == b;
  }

  lemma DropFromFirst<T>(a: seq<T>, b: seq<T>, n: nat)
    requires n <= |a|
    ensures (a + b)[n..] == a[n..] + b
  {
  }

  lemma EventsUnfold(configs: seq<Config>, args: seq<string>)
    requires args != []
    ensures var e := First(configs, args);
            Events(configs, args) == [e] + Events(configs, args[|Tokens(e)|..])
  {
  }

  /** `whole` is what the halves of a command line compose to. */
  ghost predicate Composed(whole: seq<Event>, first: seq<Event>, post: seq<string>, second: seq<Event>) {
    whole == ExtendAll(first, post) + second
  }

  lemma ComposedStep(e': Event, after: seq<Event>, e: Event, first: seq<Event>, post: seq<string>, second: seq<Event>)
    ensures Composed([e'] + after, [e] + first, post, second)
            <==> e' == Extend(e, post) && Composed(after, first, post, second)
  {
    assert ([e] + first)[1..] == first;
    var rest := ExtendAll(first, post) + second;
    assert ExtendAll([e] + first, post) + second == [Extend(e, post)] + rest;
    SameHeadSameTail(e', after, Extend(e, post), rest);
  }

  /** Scanning `pre ++ post` is scanning `pre` and then `post`, apart from the longer tails that the
      terminators of `pre` copy, exactly when `pre` does not end in an option that takes its value
      from `post`. */
  lemma {:induction false} Composition(configs: seq<Config>, pre: seq<string>, post: seq<string>)
    ensures Composed(Events(configs, pre + post), Events(configs, pre), post, Events(configs, post))
            <==> post == [] || !Hungry(configs, pre)
    decreases |pre|
  {
    if pre == [] {
      assert pre + post == post;
      assert ExtendAll(Events(configs, pre), post) + Events(configs, post) == Events(configs, post);
    } else {
      var e, e' := First(configs, pre), First(configs, pre + post);
      var n := |Tokens(e)|;
      FirstExtend(configs, pre, post);
      EventsUnfold(configs, pre);
      EventsUnfold(configs, pre + post);
      var after := Events(configs, (pre + post)[|Tokens(e')|..]);
      ComposedStep(e', after, e, Events(configs, pre[n..]), post, Events(configs, post));
      if |pre| == 1 && post != [] && Starved(configs, e) {
        assert |Tokens(Extend(e, post))| == 1;
      } else {
        DropFromFirst(pre, post, n);
        Composition(configs, pre[n..], post);
        if Starved(configs, e) {
          StarvedAtEnd(configs, pre);
        }
      }
    }
  }

  lemma StarvedAtEnd(configs: seq<Config>, args: seq<string>)
    requires args != [] && Starved(configs, First(configs, args))
    ensures |Tokens(First(configs, args))| == 1
  {
  }

  predicate NoTerminator(events: seq<Event>) {
    forall e :: e in events ==> !e.Terminator?
  }

  lemma {:induction false} NothingToExtend(events: seq<Event>, post: seq<string>)
    requires NoTerminator(events)
    ensures ExtendAll(events, post) == events
  {
    if events == [] {
    } else {
      NothingToExtend(events[1..], post);
      assert events == [events[0]] + events[1..];
    }
  }

  function Then(r: Outcome, events: seq<Event>): Outcome
    requires forall e :: e in events ==> HitsInRange(e, |r.parser.entries|)
  {
    if r.error.Some? then r else ExecuteAll(r.parser, events)
  }

  lemma {:induction false} ExecuteConcat(p: Parser, a: seq<Event>, b: seq<Event>)
    requires forall e :: e in a + b ==> HitsInRange(e, |p.entries|)
    ensures (forall e :: e in a ==> HitsInRange(e, |p.entries|)) && (forall e :: e in b ==> HitsInRange(e, |p.entries|))
    ensures ExecuteAll(p, a + b) == Then(ExecuteAll(p, a), b)
    decreases |a|
  {
    assert forall e :: e in a ==> e in a + b;
    assert forall e :: e in b ==> e in a + b;
    if a == [] {
      assert a + b == b;
    } else {
      var c := a + b;
      assert c[0] == a[0] && c[1..] == a[1..] + b;
      var q := Execute(p, a[0]);
      if q.error.None? {
        ExecuteConcat(q.parser, a[1..], b);
      }
    }
  }

  lemma {:induction false} ScanKeepsConfigs(p: Parser, events: seq<Event>)
    requires forall e :: e in events ==> HitsInRange(e, |p.entries|)
    ensures ExecuteAll(p, events).error.None? ==> Configs(ExecuteAll(p, events).parser.entries) == Configs(p.entries)
  {
    Ledger(p, events);
    if ExecuteAll(p, events).error.None? {
      SameConfigs(p, ExecuteAll(p, events).parser);
    }
  }

  /** The parser's state is all that connects two halves of a command line. */
  lemma ScanInTwoHalves(p: Parser, pre: seq<string>, post: seq<string>)
    requires !Hungry(Configs(p.entries), pre) && NoTerminator(Events(Configs(p.entries), pre))
    ensures var r := Scan(p, pre);
            Scan(p, pre + post) == if r.error.Some? then r else Scan(r.parser, post)
  {
    var configs := Configs(p.entries);
    Composition(configs, pre, post);
    NothingToExtend(Events(configs, pre), post);
    ExecuteConcat(p, Events(configs, pre), Events(configs, post));
    ScanKeepsConfigs(p, Events(configs, pre));
  }

  /** At a scanned "--" the whole tail is appended to the non-option arguments and is then scanned
      again. */
  lemma TailIsScannedAgain(p: Parser, pre: seq<string>, tail: seq<string>)
    requires !Hungry(Configs(p.entries), pre) && NoTerminator(Events(Configs(p.entries), pre))
    ensures var r := Scan(p, pre);
            Scan(p, pre + ([DASHES] + tail))
            == if r.error.Some? then r else Scan(r.parser.(nonOptions := r.parser.nonOptions + tail), tail)
  {
    ScanInTwoHalves(p, pre, [DASHES] + tail);
    var q := Scan(p, pre).parser;
    var configs := Configs(q.entries);
    assert ([DASHES] + tail)[1..] == tail;
    assert Events(configs, [DASHES] + tail) == [Terminator(tail)] + Events(configs, tail);
    assert ([Terminator(tail)] + Events(configs, tail))[1..] == Events(configs, tail);
  }

  /** Arguments that leave no trace: a bare "-", and a "--" with nothing behind it. */
  predicate Traceless(args: seq<string>) {
    forall i :: 0 <= i < |args| ==> args[i] == "-" || (args[i] == DASHES && i == |args| - 1)
  }

  lemma LettersLeaveTraces(configs: seq<Config>, token: string, opt: string, rest: seq<string>)
    ensures var e := Letters(configs, token, opt, rest); e.hits == [] && !e.unknown <==> opt == ""
  {
  }

  lemma TracelessFirst(configs: seq<Config>, args: seq<string>)
    requires args != []
    ensures var e := First(configs, args);
            && (NonOptionsOf(e) == [] && UnknownOf(e) == [] && HitsOf(e) == []
                <==> args[0] == "-" || (args[0] == DASHES && |args| == 1))
            && (args[0] == "-" ==> Tokens(e) == ["-"])
  {
    var arg := args[0];
    if arg != DASHES && IsPrefix("-", arg) && !IsPrefix(DASHES, arg) {
      LettersLeaveTraces(configs, arg, arg[1..], args[1..]);
      assert arg == [arg[0]] + arg[1..];
    } else {
      assert arg != "-";
    }
  }

  lemma {:induction false} TracelessEvents(configs: seq<Config>, args: seq<string>)
    ensures var events := Events(configs, args);
            NonOptionTokens(events) == [] && UnknownTokens(events) == [] && AllHits(events) == [] <==> Traceless(args)
    decreases |args|
  {
    if args == [] {
    } else {
      var e := First(configs, args);
      var rest := args[|Tokens(e)|..];
      TracelessFirst(configs, args);
      EventsUnfold(configs, args);
      assert ([e] + Events(configs, rest))[1..] == Events(configs, rest);
      TracelessEvents(configs, rest);
      if args[0] == "-" {
        assert forall i :: 0 <= i < |rest| ==> rest[i] == args[i + 1];
        assert Traceless(rest) ==> Traceless(args);
        assert Traceless(args) ==> Traceless(rest);
      } else {
        assert Traceless(args) ==> args[0] == DASHES && |args| == 1;
      }
    }
  }

  lemma FirstHitCounts(entries: seq<Entry>, hits: seq<Hit>)
    requires Readable(entries, hits) && hits != []
    ensures hits[0].option < |entries| && DataFor(entries, hits[0].option, hits) != []
  {
    assert hits[0] in hits;
  }

  lemma ScanLeavesNoTrace(p: Parser, args: seq<string>)
    ensures Scan(p, args) == Outcome(p, None) <==> Traceless(args)
  {
    var events := Events(Configs(p.entries), args);
    var hits := AllHits(events);
    TracelessEvents(Configs(p.entries), args);
    Ledger(p, events);
    if Traceless(args) {
      Untouched(p, events);
    }
    if Scan(p, args) == Outcome(p, None) {
      assert |p.nonOptions| == |p.nonOptions| + |NonOptionTokens(events)|;
      assert |p.unknown| == |p.unknown| + |UnknownTokens(events)|;
      if hits != [] {
        FirstHitCounts(p.entries, hits);
      }
    }
  }

  lemma {:induction false} Untouched(p: Parser, events: seq<Event>)
    requires forall e :: e in events ==> HitsInRange(e, |p.entries|)
    requires NonOptionTokens(events) == [] && UnknownTokens(events) == [] && AllHits(events) == []
    ensures ExecuteAll(p, events) == Outcome(p, None)
  {
    if events == [] {
    } else {
      var e := events[0];
      assert NonOptionsOf(e) == [] && UnknownOf(e) == [] && HitsOf(e) == [];
      assert p.nonOptions + [] == p.nonOptions;
      assert Execute(p, e) == Outcome(p, None);
      Untouched(p, events[1..]);
    }
  }

  /** The documented meaning of "--", that the rest of the line is taken as non-option arguments and
      nothing else happens, is what the code does exactly when scanning the rest leaves no trace.
      Otherwise the rest is recorded and then interpreted a second time. */
  lemma RestTakenOnceExactlyWhen(p: Parser, pre: seq<string>, tail: seq<string>)
    requires !Hungry(Configs(p.entries), pre) && NoTerminator(Events(Configs(p.entries), pre))
    ensures var r := Scan(p, pre);
            var whole := Scan(p, pre + ([DASHES] + tail));
            if r.error.Some? then whole == r
            else whole == Outcome(r.parser.(nonOptions := r.parser.nonOptions + tail), None) <==> Traceless(tail)
  {
    var q := Scan(p, pre).parser;
    TailIsScannedAgain(p, pre, tail);
    ScanLeavesNoTrace(q.(nonOptions := q.nonOptions + tail), tail);
  }

  lemma OnePositional(p: Parser, text: string)
    requires !IsPrefix("-", text) && !IsPrefix(DASHES, text)
    ensures Scan(p, [text]) == Outcome(p.(nonOptions := p.nonOptions + [text]), None)
  {
    var configs := Configs(p.entries);
    EventsUnfold(configs, [text]);
    assert Events(configs, [text]) == [Positional(text)];
    assert ExecuteAll(p, [Positional(text)])
           == ExecuteAll(Execute(p, Positional(text)).parser, [Positional(text)][1..]);
  }

  lemma RestTakenTwice(p: Parser)
    ensures Scan(p, ["--", "file"]) == Outcome(p.(nonOptions := p.nonOptions + ["file", "file"]), None)
  {
    TailIsScannedAgain(p, [], ["file"]);
    assert [] + ([DASHES] + ["file"]) == [DASHES, "file"];
    assert "file"[..1][0] == 'f' && "file"[..2][0] == 'f';
    OnePositional(p.(nonOptions := p.nonOptions + ["file"]), "file");
    assert p.nonOptions + ["file"] + ["file"] == p.nonOptions + ["file", "file"];
  }

  function Passed(e: Event, terminators: nat): nat {
    if e.Terminator? then terminators + 1 else terminators
  }

  /** Each argument counts once for every scanned "--" before it, and once more if it is itself
      scanned as a positional. */
  function Weight(events: seq<Event>, x: string, terminators: nat): nat {
    if events == [] then 0
    else
      var e := events[0];
      terminators * multiset(Tokens(e))[x]
      + (if e == Positional(x) then 1 else 0)
      + Weight(events[1..], x, Passed(e, terminators))
  }

  lemma {:induction false} WeightFrom(configs: seq<Config>, args: seq<string>, x: string, terminators: nat)
    ensures multiset(NonOptionTokens(Events(configs, args)))[x] + terminators * multiset(args)[x]
            == Weight(Events(configs, args), x, terminators)
    decreases |args|
  {
    if args == [] {
      assert terminators * multiset(args)[x] == 0;
    } else {
      var e := First(configs, args);
      var rest := args[|Tokens(e)|..];
      var events := Events(configs, rest);
      var m := Passed(e, terminators);
      var own: nat := if e == Positional(x) then 1 else 0;
      var a, b := multiset(Tokens(e))[x], multiset(rest)[x];
      var later, weight := multiset(NonOptionTokens(events))[x], Weight(events, x, m);
      WeightFrom(configs, rest, x, m);
      assert later + m * b == weight;
      FirstNonOptions(configs, args, x);
      EventsUnfold(configs, args);
      WeightUnfold(e, events, x, terminators);
      var c, all := multiset(args)[x], multiset(NonOptionTokens(Events(configs, args)))[x];
      assert c == a + b;
      assert all == (if e.Terminator? then b else own) + later;
      WeightAddsUp(terminators, m, own, a, b, c, later, all, weight);
      assert Weight(Events(configs, args), x, terminators) == terminators * a + own + weight;
    }
  }

  lemma FirstNonOptions(configs: seq<Config>, args: seq<string>, x: string)
    requires args != []
    ensures var e := First(configs, args);
            multiset(args)[x] == multiset(Tokens(e))[x] + multiset(args[|Tokens(e)|..])[x]
    ensures var e := First(configs, args);
            multiset(NonOptionsOf(e))[x]
            == if e.Terminator? then multiset(args[|Tokens(e)|..])[x] else if e == Positional(x) then 1 else 0
  {
    var ts := Tokens(First(configs, args));
    assert args == ts + args[|ts|..];
  }

  lemma WeightUnfold(e: Event, events: seq<Event>, x: string, terminators: nat)
    ensures Weight([e] + events, x, terminators)
            == terminators * multiset(Tokens(e))[x] + (if e == Positional(x) then 1 else 0)
               + Weight(events, x, Passed(e, terminators))
    ensures multiset(NonOptionTokens([e] + events))[x]
            == multiset(NonOptionsOf(e))[x] + multiset(NonOptionTokens(events))[x]
  {
    assert ([e] + events)[1..] == events;
  }

  lemma WeightAddsUp(n: nat, m: nat, own: nat, a: nat, b: nat, c: nat, later: nat, all: nat, weight: nat)
    requires (m == n || (m == n + 1 && own == 0)) && later + m * b == weight
    requires c == a + b && all == (if m == n then own else b) + later
    ensures all + n * c == n * a + own + weight
  {
    assert n * c == n * a + n * b && (n + 1) * b == n * b + b;
  }

  /** The exact multiplicity with which a scan records each argument as a non-option argument. */
  lemma MultiplicityOfArguments(p: Parser, args: seq<string>, x: string)
    requires Scan(p, args).error.None?
    ensures multiset(Scan(p, args).parser.nonOptions)[x]
            == multiset(p.nonOptions)[x] + Weight(Events(Configs(p.entries), args), x, 0)
  {
    Ledger(p, Events(Configs(p.entries), args));
    WeightFrom(Configs(p.entries), args, x, 0);
  }

  // ----- Bindings survive scans -----

  lemma {:induction false} DeliverAllBinds(p: Parser, hits: seq<Hit>, name: OptionName, k: nat)
    requires forall h :: h in hits ==> h.option < |p.entries|
    requires k < |p.entries| && Unaliased(p, k) && BindingHolds(p, k)
    ensures var q := DeliverAll(p, hits, name).parser;
            SameShape(p, q) && Unaliased(q, k) && BindingHolds(q, k)
    decreases |hits|
  {
    if hits == [] {
    } else {
      DeliverBinds(p, hits[0], name, k);
      var r := Deliver(p, hits[0], name);
      if r.error.None? {
        DeliverAllBinds(r.parser, hits[1..], name, k);
        SameShapeTwice(p, r.parser, DeliverAll(p, hits, name).parser);
      }
    }
  }

  lemma ExecuteBinds(p: Parser, e: Event, k: nat)
    requires HitsInRange(e, |p.entries|) && k < |p.entries| && Unaliased(p, k) && BindingHolds(p, k)
    ensures var q := Execute(p, e).parser;
            SameShape(p, q) && Unaliased(q, k) && BindingHolds(q, k)
  {
    match e
    case Long(_, Some(hit), _) => DeliverBinds(p, hit, LongName, k);
    case Cluster(_, hits, _, _) => DeliverAllBinds(p, hits, ShortName, k);
    case _ =>
  }

  /** Even a scan that ends with an exception leaves every unaliased bound variable in step with
      its option. */
  lemma {:induction false} ScanBinds(p: Parser, events: seq<Event>, k: nat)
    requires forall e :: e in events ==> HitsInRange(e, |p.entries|)
    requires k < |p.entries| && Unaliased(p, k) && BindingHolds(p, k)
    ensures var q := ExecuteAll(p, events).parser;
            SameShape(p, q) && Unaliased(q, k) && BindingHolds(q, k)
    decreases |events|
  {
    if events == [] {
    } else {
      ExecuteBinds(p, events[0], k);
      var r := Execute(p, events[0]);
      if r.error.None? {
        ScanBinds(r.parser, events[1..], k);
        SameShapeTwice(p, r.parser, ExecuteAll(p, events).parser);
      }
    }
  }
}
