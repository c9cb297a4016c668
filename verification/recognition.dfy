/** What the scan makes of any token that begins with a dash, rendered by a user of the options or
    not: which options are set, with which argument, and when the token counts as unknown. */
module Recognition {
  import opened Basics
  import opened Popl
  import opened CommandLine
  import RoundTrip

  function NameIn(token: string): string
    requires IsPrefix(DASHES, token)
  {
    token[2..][..Find(token[2..], '=', 0)]
  }

  function ValueIn(token: string): string
    requires IsPrefix(DASHES, token)
  {
    var eq := Find(token[2..], '=', 0);
    if eq < |token| - 2 then token[2..][eq + 1..] else ""
  }

  /** Option `k` is active and the first one that has the long name; the empty name is the long name
      of every option that has only a short one. */
  ghost predicate HasLong(configs: seq<Config>, k: nat, name: string) {
    k < |configs| && configs[k].longName == name && configs[k].attribute != Inactive
    && forall j :: 0 <= j < k ==> configs[j].longName != name
  }

  ghost predicate HasShort(configs: seq<Config>, k: nat, c: char) {
    k < |configs| && ShortNameOf(configs[k]) == c && configs[k].attribute != Inactive
    && forall j :: 0 <= j < k ==> ShortNameOf(configs[j]) != c
  }

  /** Exactly which tokens that begin with "--" are unknown: those for which no active option is found
      under the name, or only a switch is, and a value is given. */
  lemma UnknownLongExactlyWhen(configs: seq<Config>, token: string, rest: seq<string>)
    requires token != DASHES && IsPrefix(DASHES, token)
    ensures UnknownOf(First(configs, [token] + rest)) == [token]
            <==> forall k: nat :: HasLong(configs, k, NameIn(token)) ==>
                   configs[k].kind == SwitchOption && ValueIn(token) != ""
  {
    var j := FindLong(configs, NameIn(token));
    forall k: nat | HasLong(configs, k, NameIn(token))
      ensures k == j
    {
    }
    assert j < |configs| && configs[j].attribute != Inactive ==> HasLong(configs, j, NameIn(token));
  }

  /** With distinct names, for a non-empty name. */
  lemma UnknownAssignmentExactlyWhen(configs: seq<Config>, name: string, value: string, rest: seq<string>)
    requires DistinctNames(configs) && name != "" && '=' !in name
    ensures var token := DASHES + (name + "=" + value);
            UnknownOf(First(configs, [token] + rest)) == [token]
            <==> forall k :: 0 <= k < |configs| && configs[k].longName == name && configs[k].attribute != Inactive ==>
                   configs[k].kind == SwitchOption && value != ""
  {
    var token := DASHES + (name + "=" + value);
    RoundTrip.LongToken(name + "=" + value);
    RoundTrip.LongNameSplits(name, value);
    UnknownLongExactlyWhen(configs, token, rest);
    forall k | 0 <= k < |configs| && configs[k].longName == name && configs[k].attribute != Inactive
      ensures HasLong(configs, k, name)
    {
      FoundByName(configs, k);
    }
  }

  /** "--=value" has the empty name and so goes to the first option that has no long name. */
  lemma EmptyNameIsFound(configs: seq<Config>, k: nat, value: string, rest: seq<string>)
    requires HasLong(configs, k, "") && configs[k].kind != SwitchOption && value != ""
    ensures var token := DASHES + ("=" + value);
            First(configs, [token] + rest) == Long(token, Some(Hit(k, value)), [])
  {
    RoundTrip.LongToken("=" + value);
    RoundTrip.LongNameSplits("", value);
    assert "" + "=" + value == "=" + value;
    assert ("=" + value)[0] == '=' && ("=" + value)[1..] == value;
    assert FindLong(configs, "") == k;
  }

  /** A letter at which a cluster stops, because its option takes the rest as its value. */
  ghost predicate TakesRest(configs: seq<Config>, c: char) {
    exists k: nat :: HasShort(configs, k, c) && configs[k].kind != SwitchOption
  }

  ghost predicate IsUnknownLetter(configs: seq<Config>, c: char) {
    forall k: nat :: !HasShort(configs, k, c)
  }

  lemma LetterFound(configs: seq<Config>, c: char)
    ensures var k := Active(configs, FindShort(configs, c));
            && (k.None? <==> IsUnknownLetter(configs, c))
            && (k.Some? && configs[k.value].kind != SwitchOption <==> TakesRest(configs, c))
  {
    var j := FindShort(configs, c);
    forall k: nat | HasShort(configs, k, c)
      ensures k == j
    {
    }
    assert j < |configs| && configs[j].attribute != Inactive ==> HasShort(configs, j, c);
  }

  /** Among the letters, an unknown one that no option before it has taken as part of its value. */
  ghost predicate HasUnknown(configs: seq<Config>, letters: string) {
    exists i :: 0 <= i < |letters| && IsUnknownLetter(configs, letters[i])
                && forall j :: 0 <= j < i ==> !TakesRest(configs, letters[j])
  }

  lemma {:induction false} UnknownLetters(configs: seq<Config>, token: string, letters: string, rest: seq<string>)
    ensures Letters(configs, token, letters, rest).unknown <==> HasUnknown(configs, letters)
  {
    if letters == "" {
    } else {
      var more := letters[1..];
      UnknownLetters(configs, token, more, rest);
      LetterFound(configs, letters[0]);
      HasUnknownUnfold(configs, letters);
    }
  }

  lemma HasUnknownUnfold(configs: seq<Config>, letters: string)
    requires letters != ""
    ensures HasUnknown(configs, letters)
            <==> IsUnknownLetter(configs, letters[0])
                 || (!TakesRest(configs, letters[0]) && HasUnknown(configs, letters[1..]))
  {
    var more := letters[1..];
    if HasUnknown(configs, letters) && !IsUnknownLetter(configs, letters[0]) {
      var i :| 0 <= i < |letters| && IsUnknownLetter(configs, letters[i])
               && forall j :: 0 <= j < i ==> !TakesRest(configs, letters[j]);
      assert more[i - 1] == letters[i];
      assert forall j :: 0 <= j < i - 1 ==> more[j] == letters[j + 1];
    }
    if !TakesRest(configs, letters[0]) && HasUnknown(configs, more) {
      var i :| 0 <= i < |more| && IsUnknownLetter(configs, more[i])
               && forall j :: 0 <= j < i ==> !TakesRest(configs, more[j]);
      assert letters[i + 1] == more[i];
      forall j | 0 <= j < i + 1
        ensures !TakesRest(configs, letters[j])
      {
        assert j > 0 ==> letters[j] == more[j - 1];
      }
    }
  }

  /** Exactly which clusters are unknown: those with a letter that names no active option and is not
      part of the value of an option before it. The options of the other letters are set. */
  lemma UnknownClusterExactlyWhen(configs: seq<Config>, token: string, rest: seq<string>)
    requires IsPrefix("-", token) && !IsPrefix(DASHES, token)
    ensures UnknownOf(First(configs, [token] + rest)) == [token] <==> HasUnknown(configs, token[1..])
  {
    UnknownLetters(configs, token, token[1..], rest);
    assert ([token] + rest)[1..] == rest;
  }

  /** What a token that begins with "--" gives to the option of its name. */
  ghost predicate GivesLong(configs: seq<Config>, e: Event, k: nat, value: string, rest: seq<string>)
    requires e.Long? && k < |configs|
  {
    match configs[k].kind
    case SwitchOption => e.taken == [] && e.hit == if value == "" then Some(Hit(k, "")) else None
    case ImplicitOption => e.taken == [] && e.hit == Some(Hit(k, value))
    case ValueOption =>
      if value == "" && rest != [] then e.taken == [rest[0]] && e.hit == Some(Hit(k, rest[0]))
      else e.taken == [] && e.hit == Some(Hit(k, value))
  }

  lemma LongFound(configs: seq<Config>, k: nat, name: string)
    requires HasLong(configs, k, name)
    ensures Active(configs, FindLong(configs, name)) == Some(k)
  {
    assert FindLong(configs, name) == k;
  }

  lemma LongMissing(configs: seq<Config>, name: string)
    requires forall k: nat :: !HasLong(configs, k, name)
    ensures Active(configs, FindLong(configs, name)) == None
  {
    assert !HasLong(configs, FindLong(configs, name), name);
  }

  /** Every token that begins with "--": the option of its name gets its value, or the next argument if
      it needs one and none is there. */
  lemma LongMeans(configs: seq<Config>, token: string, rest: seq<string>, k: nat)
    requires token != DASHES && IsPrefix(DASHES, token) && HasLong(configs, k, NameIn(token))
    ensures var e := First(configs, [token] + rest);
            e.Long? && e.token == token && GivesLong(configs, e, k, ValueIn(token), rest)
  {
    var args := [token] + rest;
    assert rest != [] ==> args[1] == rest[0];
    LongFound(configs, k, NameIn(token));
  }

  /** Without an active option of the name nothing is set. */
  lemma LongMeansNothing(configs: seq<Config>, token: string, rest: seq<string>)
    requires token != DASHES && IsPrefix(DASHES, token) && forall k: nat :: !HasLong(configs, k, NameIn(token))
    ensures First(configs, [token] + rest) == Long(token, None, [])
  {
    LongMissing(configs, NameIn(token));
  }

  // ----- Clusters -----

  /** The first letter whose option takes the rest of the cluster as its value, or the end. */
  ghost function StopsAt(configs: seq<Config>, letters: string): (n: nat)
    ensures n <= |letters| && (n < |letters| ==> TakesRest(configs, letters[n]))
    ensures forall j :: 0 <= j < n ==> !TakesRest(configs, letters[j])
  {
    if letters == "" || TakesRest(configs, letters[0]) then 0 else 1 + StopsAt(configs, letters[1..])
  }

  /** The letters that name an active option, unknown ones left out. */
  ghost function Known(configs: seq<Config>, letters: string): string {
    Filter((c: char) => !IsUnknownLetter(configs, c), letters)
  }

  /** The options of the known letters before position `n` are set, in order and without an argument. */
  ghost predicate SetsSwitches(configs: seq<Config>, hits: seq<Hit>, known: string) {
    |known| <= |hits|
    && forall j :: 0 <= j < |known| ==> HasShort(configs, hits[j].option, known[j]) && hits[j].argument == ""
  }

  ghost predicate ClusterGives(configs: seq<Config>, e: Event, letters: string, rest: seq<string>, n: nat)
    requires e.Cluster? && n <= |letters|
  {
    var known := Known(configs, letters[..n]);
    && SetsSwitches(configs, e.hits, known)
    && if n == |letters| then |e.hits| == |known| && e.taken == []
       else
         && |e.hits| == |known| + 1
         && var value := letters[n + 1..];
         && var last := e.hits[|known|];
         && HasShort(configs, last.option, letters[n])
         && if value == "" && rest != [] && configs[last.option].kind == ValueOption
            then last.argument == rest[0] && e.taken == [rest[0]]
            else last.argument == value && e.taken == []
  }

  lemma KnownUnfold(configs: seq<Config>, letters: string, n: nat)
    requires 0 < n <= |letters|
    ensures Known(configs, letters[..n])
            == (if IsUnknownLetter(configs, letters[0]) then [] else [letters[0]])
               + Known(configs, letters[1..][..n - 1])
  {
    assert letters[..n] == [letters[0]] + letters[1..][..n - 1];
    var keep := (c: char) => !IsUnknownLetter(configs, c);
    FilterConcat(keep, [letters[0]], letters[1..][..n - 1]);
    assert Front([letters[0]]) == [];
  }

  lemma {:induction false} LettersGive(configs: seq<Config>, token: string, letters: string, rest: seq<string>)
    ensures ClusterGives(configs, Letters(configs, token, letters, rest), letters, rest, StopsAt(configs, letters))
    decreases |letters|
  {
    if letters == "" {
    } else {
      var n := StopsAt(configs, letters);
      LetterFound(configs, letters[0]);
      if n == 0 {
        StopGives(configs, token, letters, rest);
      } else {
        LettersGive(configs, token, letters[1..], rest);
        KnownUnfold(configs, letters, n);
        assert n < |letters| ==> letters[1..][n..] == letters[n + 1..];
        GivesOneMore(configs, token, letters, rest, n);
      }
    }
  }

  lemma StopGives(configs: seq<Config>, token: string, letters: string, rest: seq<string>)
    requires letters != "" && TakesRest(configs, letters[0])
    ensures ClusterGives(configs, Letters(configs, token, letters, rest), letters, rest, 0)
  {
    var j := FindShort(configs, letters[0]);
    LetterFound(configs, letters[0]);
    assert HasShort(configs, j, letters[0]);
  }

  lemma GivesOneMore(configs: seq<Config>, token: string, letters: string, rest: seq<string>, n: nat)
    requires 0 < n <= |letters| && !TakesRest(configs, letters[0])
    requires ClusterGives(configs, Letters(configs, token, letters[1..], rest), letters[1..], rest, n - 1)
    ensures ClusterGives(configs, Letters(configs, token, letters, rest), letters, rest, n)
  {
    var e, more := Letters(configs, token, letters, rest), Letters(configs, token, letters[1..], rest);
    var known, later := Known(configs, letters[..n]), Known(configs, letters[1..][..n - 1]);
    KnownUnfold(configs, letters, n);
    LetterFound(configs, letters[0]);
    assert n < |letters| ==> letters[1..][n - 1] == letters[n] && letters[1..][n..] == letters[n + 1..];
    assert e.taken == more.taken;
    if IsUnknownLetter(configs, letters[0]) {
      assert known == later && e.hits == more.hits;
    } else {
      var k := FindShort(configs, letters[0]);
      assert HasShort(configs, k, letters[0]);
      assert known == [letters[0]] + later && e.hits == [Hit(k, "")] + more.hits;
    }
  }

  /** Every cluster of letters, with unknown ones or without: it sets, in order, the switch of each known
      letter before the first letter that takes a value, and gives that one the rest of the cluster,
      or the next argument if it needs a value and the cluster ends. */
  lemma ClusterMeans(configs: seq<Config>, token: string, rest: seq<string>)
    requires IsPrefix("-", token) && !IsPrefix(DASHES, token)
    ensures var e := First(configs, [token] + rest);
            && e.Cluster? && e.token == token
            && ClusterGives(configs, e, token[1..], rest, StopsAt(configs, token[1..]))
  {
    LettersGive(configs, token, token[1..], rest);
    assert ([token] + rest)[1..] == rest;
  }
}
