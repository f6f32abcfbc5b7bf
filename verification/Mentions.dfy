/** Which corpus targets a question names, in the order it names them. */
module Mentions {
  import opened Seqs
  import opened Text
  import opened MentionOrder

  // ----- aliases -----

  const UNSAFE_DERIVED_ALIASES: set<string> := {
    "company", "종목", "기업", "회사", "개별주", "개별종목",
    "industry", "산업", "업종", "섹터",
    "economy", "경제", "매크로"}

  predicate IsSuffix(tail: string, s: string) { |tail| <= |s| && tail == s[|s| - |tail|..] }

  /** What follows the first white space after which the name stays on one line: `\s+(\S.*)$` */
  function TailAfterSpace(s: string): (r: Option<string>)
    ensures r.Some? ==> r.value != "" && IsSuffix(r.value, s)
  {
    if s == "" then None
    else if IsSpace(s[0]) && DropSpaces(s) != "" && '\n' !in DropSpaces(s) then Some(DropSpaces(s))
    else TailAfterSpace(s[1..])
  }

  predicate IsAscii(c: char) { c as int < 128 }

  predicate IsAsciiAlnum(c: char) { '0' <= c <= '9' || 'A' <= c <= 'Z' || 'a' <= c <= 'z' }

  predicate SafeDerived(alias: string) { |alias| >= 2 && alias !in UNSAFE_DERIVED_ALIASES }

  function WholeName(target: string, fold: string -> string): string { Normalize(Strip(target), fold) }

  /** The part after a space. */
  function TailAlias(target: string, fold: string -> string): set<string> {
    var tail := TailAfterSpace(Strip(target));
    if tail.Some? && SafeDerived(Normalize(tail.value, fold)) then {Normalize(tail.value, fold)} else {}
  }

  /** The parts after an ASCII prefix. */
  function LocalAliases(whole: string): (aliases: set<string>)
    ensures forall a :: a in aliases ==> IsSuffix(a, whole) && SafeDerived(a)
  {
    set i | 1 <= i < |whole| && IsAsciiAlnum(whole[i - 1]) && !IsAscii(whole[i]) && SafeDerived(whole[i..]) ::
      whole[i..]
  }

  /** `_safe_target_aliases` */
  function Aliases(target: string, fold: string -> string): set<string> {
    var whole := WholeName(target, fold);
    (if whole != "" then {whole} else {}) + TailAlias(target, fold) + LocalAliases(whole)
  }

  /** Folding works character by character. */
  ghost predicate FoldsPartwise(fold: string -> string) {
    forall a, b {:trigger fold(a + b)} :: fold(a + b) == fold(a) + fold(b)
  }

  lemma TailIsSuffix(canonical: string, tail: string, fold: string -> string)
    requires IsSuffix(tail, canonical) && FoldsPartwise(fold)
    ensures IsSuffix(Normalize(tail, fold), Normalize(canonical, fold))
  {
    var front := canonical[..|canonical| - |tail|];
    assert canonical == front + tail;
    FilterAppend(fold(front), fold(tail), NotBlank());
  }

  lemma TailAliasIsSuffix(target: string, fold: string -> string, alias: string)
    requires alias in TailAlias(target, fold) && FoldsPartwise(fold)
    ensures IsSuffix(alias, WholeName(target, fold)) && SafeDerived(alias)
  {
    TailIsSuffix(Strip(target), TailAfterSpace(Strip(target)).value, fold);
  }

  /**
    Every alias is the end of the whole normalized name; one shorter than it has two characters and is no
    generic word.
   */
  lemma AliasesAreSuffixes(target: string, fold: string -> string, alias: string)
    requires alias in Aliases(target, fold) && FoldsPartwise(fold)
    ensures var whole := WholeName(target, fold);
      alias != "" && IsSuffix(alias, whole) && (alias == whole || SafeDerived(alias))
  {
    if alias in TailAlias(target, fold) {
      TailAliasIsSuffix(target, fold, alias);
    }
  }

  /** The known target names, each with its aliases and its whole normalized name. */
  datatype Corpus = Corpus(aliases: map<string, set<string>>, fullNames: map<string, string>)

  function NamesIn(candidates: seq<string>): set<string> { set c | c in candidates && c != "" }

  function CorpusOf(names: set<string>, fold: string -> string): Corpus {
    Corpus(map c | c in names :: Aliases(c, fold), map c | c in names :: Normalize(c, fold))
  }

  predicate Claims(k: Corpus, name: string, alias: string) { name in k.aliases && alias in k.aliases[name] }

  predicate IsFullName(k: Corpus, name: string, alias: string) { name in k.fullNames && k.fullNames[name] == alias }

  /** Nobody else claims the alias, or nobody else who claims it has it as the full name. */
  ghost predicate Owns(k: Corpus, name: string, alias: string) {
    && Claims(k, name, alias)
    && ((forall n :: Claims(k, n, alias) ==> n == name)
      || (IsFullName(k, name, alias) && forall n :: Claims(k, n, alias) && IsFullName(k, n, alias) ==> n == name))
  }

  lemma OneOwner(k: Corpus, a: string, b: string, alias: string)
    requires Owns(k, a, alias) && Owns(k, b, alias)
    ensures a == b
  {
  }

  // ----- the targets of a question -----

  ghost predicate IsMention(k: Corpus, q: string, m: Mention) {
    m.length >= 1 && End(m) <= |q| && Owns(k, m.owner, q[m.start..End(m)])
  }

  /** Every place of the question where an alias stands that names one target. */
  ghost function AllMentions(k: Corpus, q: string): (all: set<Mention>)
    ensures forall m :: m in all <==> IsMention(k, q, m)
  {
    set p: nat, l: nat, o | p < |q| && l <= |q| && o in k.aliases && IsMention(k, q, Mention(p, l, o)) ::
      Mention(p, l, o)
  }

  lemma MentionsAreProper(k: Corpus, q: string)
    ensures Proper(AllMentions(k, q), |q|)
  {
    var all := AllMentions(k, q);
    forall a, b | a in all && b in all && a.start == b.start && a.length == b.length ensures a == b {
      OneOwner(k, a.owner, b.owner, q[a.start..End(a)]);
    }
  }

  /**
    The targets a question names: the owners of its leftmost-longest mentions, each once. It
    depends on the set of candidates only, not on their order or repetition.
   */
  ghost function NamedTargets(q: string, k: Corpus): seq<string> {
    FirstOwners(Walk(AllMentions(k, q), |q|, 0))
  }

  /** Every resolvable occurrence begins inside an accepted one; accepted ones are disjoint, in order and longest. */
  lemma NamedTargetsAreLeftmostLongest(q: string, k: Corpus, ms: seq<Mention>)
    ensures LeftmostLongest(AllMentions(k, q), ms, 0) <==> ms == Walk(AllMentions(k, q), |q|, 0)
    ensures LeftmostLongest(AllMentions(k, q), ms, 0) ==> NamedTargets(q, k) == FirstOwners(ms)
  {
    MentionsAreProper(k, q);
    WalkIsLeftmostLongest(AllMentions(k, q), |q|, 0);
    if LeftmostLongest(AllMentions(k, q), ms, 0) {
      LeftmostLongestIsWalk(AllMentions(k, q), |q|, ms, 0);
    }
  }

  // ----- the algorithm -----

  /** `q.find(alias, from)` */
  function Find(q: string, alias: string, from: nat): (r: int)
    ensures r == -1 || (from <= r && StandsAt(q, alias, r))
    ensures forall p :: from <= p && StandsAt(q, alias, p) ==> 0 <= r <= p
    decreases |q| - from
  {
    if from + |alias| > |q| then -1
    else if StandsAt(q, alias, from) then from
    else Find(q, alias, from + 1)
  }

  predicate StandsAt(q: string, alias: string, p: nat) {
    p + |alias| <= |q| && q[p..p + |alias|] == alias
  }

  predicate Stands(q: string, alias: string, m: Mention) {
    m.length == |alias| && StandsAt(q, alias, m.start)
  }

  /** All occurrences of one alias, overlapping ones too. */
  method Occurrences(q: string, alias: string, owner: string) returns (ms: seq<Mention>)
    ensures forall m :: m in ms <==> Stands(q, alias, m) && m.owner == owner
  {
    ms := [];
    var from := 0;
    var start := Find(q, alias, 0);
    while start >= 0
      invariant start == Find(q, alias, from)
      invariant forall m :: m in ms <==> Stands(q, alias, m) && m.owner == owner && m.start < from
      decreases |q| - from
    {
      ms := ms + [Mention(start, |alias|, owner)];
      from := start + 1;
      start := Find(q, alias, from);
    }
  }

  /** The targets that claim an alias. */
  function Claimants(k: Corpus, alias: string): set<string> { set n | n in k.aliases && alias in k.aliases[n] }

  /** From every alias to the targets that claim it. */
  predicate IsOwnerTable(k: Corpus, owners: map<string, set<string>>) {
    && (forall alias :: alias in owners ==> owners[alias] == Claimants(k, alias))
    && (forall n :: n in k.aliases ==> k.aliases[n] <= owners.Keys)
    && (forall alias :: alias in owners ==> Claimants(k, alias) != {})
  }

  method CollectOwners(k: Corpus) returns (owners: map<string, set<string>>)
    ensures IsOwnerTable(k, owners)
  {
    owners := map[];
    var names := k.aliases.Keys;
    ghost var done: map<string, set<string>> := map[];
    while names != {}
      invariant done.Keys == k.aliases.Keys - names && names <= k.aliases.Keys
      invariant forall n :: n in done ==> done[n] == k.aliases[n]
      invariant IsOwnerTable(Corpus(done, k.fullNames), owners)
      decreases names
    {
      var name :| name in names;
      ghost var before := Corpus(done, k.fullNames);
      var extended := AddName(name, k.aliases[name], owners);
      NameAdded(before, name, k.aliases[name], owners, extended);
      owners := extended;
      done := done[name := k.aliases[name]];
      names := names - {name};
    }
    assert done == k.aliases;
  }

  function OwnersAt(owners: map<string, set<string>>, alias: string): set<string> {
    if alias in owners then owners[alias] else {}
  }

  ghost predicate Extends(
    name: string, aliases: set<string>, before: map<string, set<string>>, after: map<string, set<string>>)
  {
    && after.Keys == before.Keys + aliases
    && forall a :: a in after ==> after[a] == OwnersAt(before, a) + if a in aliases then {name} else {}
  }

  /** `setdefault(alias, set()).add(name)` for every alias of a name */
  method AddName(name: string, aliases: set<string>, before: map<string, set<string>>)
    returns (owners: map<string, set<string>>)
    ensures Extends(name, aliases, before, owners)
  {
    owners := before;
    var todo := aliases;
    while todo != {}
      invariant todo <= aliases && Extends(name, aliases - todo, before, owners)
      decreases todo
    {
      var alias :| alias in todo;
      assert aliases - (todo - {alias}) == (aliases - todo) + {alias};
      assert OwnersAt(owners, alias) == OwnersAt(before, alias);
      owners := owners[alias := OwnersAt(owners, alias) + {name}];
      todo := todo - {alias};
    }
    assert aliases - {} == aliases;
  }

  lemma NameAdded(
    k: Corpus, name: string, aliases: set<string>, before: map<string, set<string>>, after: map<string, set<string>>)
    requires IsOwnerTable(k, before) && name !in k.aliases && Extends(name, aliases, before, after)
    ensures IsOwnerTable(Corpus(k.aliases[name := aliases], k.fullNames), after)
  {
    var l := Corpus(k.aliases[name := aliases], k.fullNames);
    forall a | a in after ensures after[a] == Claimants(l, a) && Claimants(l, a) != {} {
      ClaimantsGrow(k, name, aliases, a);
      if n :| n in Claimants(k, a) {
        assert a in before;
      }
    }
  }

  lemma ClaimantsGrow(k: Corpus, name: string, aliases: set<string>, alias: string)
    requires name !in k.aliases
    ensures Claimants(Corpus(k.aliases[name := aliases], k.fullNames), alias)
      == Claimants(k, alias) + if alias in aliases then {name} else {}
  {
  }

  lemma OnlyElement(s: set<string>, a: string, b: string)
    requires |s| == 1 && a in s && b in s
    ensures a == b
  {
    assert |s - {a}| == 0;
    assert b == a || b in s - {a};
  }

  function Exact(k: Corpus, alias: string, owners: set<string>): set<string> {
    set o | o in owners && IsFullName(k, o, alias)
  }

  lemma SoleOwner(k: Corpus, alias: string, o: string)
    ensures Owns(k, o, alias) ==> Claimants(k, alias) == {o} || Exact(k, alias, Claimants(k, alias)) == {o}
  {
    var owners := Claimants(k, alias);
    if Owns(k, o, alias) {
      assert forall n :: n in owners <==> Claims(k, n, alias);
    }
  }

  /** The only claimant, or else the only one whose full name the alias is. */
  method ResolveOwner(k: Corpus, alias: string, owners: set<string>) returns (owner: Option<string>)
    requires owners == Claimants(k, alias)
    ensures owner.Some? ==> Owns(k, owner.value, alias)
    ensures owner.None? ==> forall o :: !Owns(k, o, alias)
  {
    if |owners| == 1 {
      var o :| o in owners;
      forall n | Claims(k, n, alias) ensures n == o {
        OnlyElement(owners, n, o);
      }
      return Some(o);
    }
    var exact := Exact(k, alias, owners);
    if |exact| != 1 {
      forall o ensures !Owns(k, o, alias) {
        SoleOwner(k, alias, o);
      }
      return None;
    }
    var o :| o in exact;
    forall n | Claims(k, n, alias) && IsFullName(k, n, alias) ensures n == o {
      OnlyElement(exact, n, o);
    }
    owner := Some(o);
  }

  ghost predicate MentionOf(k: Corpus, q: string, m: Mention, aliases: set<string>) {
    IsMention(k, q, m) && q[m.start..End(m)] in aliases
  }

  /** The mentions of one alias, if it names one target. */
  method MentionsOfAlias(k: Corpus, q: string, alias: string, owners: set<string>) returns (ms: seq<Mention>)
    requires owners == Claimants(k, alias)
    ensures forall m :: m in ms <==> MentionOf(k, q, m, {alias})
  {
    if alias == "" {
      return [];
    }
    var owner := ResolveOwner(k, alias, owners);
    if owner.None? {
      return [];
    }
    ms := Occurrences(q, alias, owner.value);
    forall m | MentionOf(k, q, m, {alias}) ensures m.owner == owner.value && Stands(q, alias, m) {
      OneOwner(k, m.owner, owner.value, alias);
    }
  }

  /** Every mention of every alias that names one target, in no particular order. */
  method CollectMentions(k: Corpus, q: string, owners: map<string, set<string>>) returns (ms: seq<Mention>)
    requires IsOwnerTable(k, owners)
    ensures forall m :: m in ms <==> IsMention(k, q, m)
  {
    ms := [];
    var todo := owners.Keys;
    while todo != {}
      invariant todo <= owners.Keys
      invariant forall m :: m in ms <==> MentionOf(k, q, m, owners.Keys - todo)
      decreases todo
    {
      var alias :| alias in todo;
      var found := MentionsOfAlias(k, q, alias, owners[alias]);
      assert owners.Keys - (todo - {alias}) == (owners.Keys - todo) + {alias};
      ms := ms + found;
      todo := todo - {alias};
    }
    forall m | IsMention(k, q, m) ensures MentionOf(k, q, m, owners.Keys) {
      assert Claims(k, m.owner, q[m.start..End(m)]);
    }
    assert owners.Keys - {} == owners.Keys;
  }

  /** `_pick_ordered_mentioned_targets` */
  method PickOrderedMentionedTargets(
    query: string, candidates: seq<string>, fold: string -> string) returns (ordered: seq<string>)
    ensures ordered == NamedTargets(Normalize(query, fold), CorpusOf(NamesIn(candidates), fold))
    ensures Distinct(ordered)
  {
    var k := CorpusOf(NamesIn(candidates), fold);
    var owners := CollectOwners(k);
    var q := Normalize(query, fold);
    var mentions := CollectMentions(k, q, owners);
    var ms := SortMentions(mentions);
    ordered := KeepUncovered(ms);
    MentionsAreProper(k, q);
    GreedyIsWalk(AllMentions(k, q), |q|, ms);
  }
}
