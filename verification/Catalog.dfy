/** Matching a drive against the profile catalog: an exact pass, then a product-blind pass that binds
    only a tuple unique in the whole catalog, unless the drive reports no product at all. */
module Catalog {
  import opened Wrappers

  datatype Identity = Identity(vendor: string, product: string, revision: string, specific: string, date: string)

  /** `body` stands for everything of a profile but its identity. */
  datatype Profile = Profile(identity: Identity, body: nat)

  datatype Platform = Mt1959A | Mt1959B | Renesas

  datatype Match = Match(profile: Profile, platform: Platform)

  datatype Profiles = Profiles(mt1959a: seq<Profile>, mt1959b: seq<Profile>, renesas: seq<Profile>)

  predicate IsSpace(c: char) { c == ' ' || '\t' <= c <= '\r' }

  function Trim(s: string): string
    decreases |s|
  {
    if s == [] then s
    else if IsSpace(s[0]) then Trim(s[1..])
    else if IsSpace(s[|s| - 1]) then Trim(s[..|s| - 1])
    else s
  }

  predicate AllSpace(s: string) { forall c <- s :: IsSpace(c) }

  /** Trimming takes white space off both ends, as much as there is, and nothing else. */
  lemma {:induction false} TrimMeaning(s: string) returns (head: string, tail: string)
    ensures s == head + Trim(s) + tail && AllSpace(head) && AllSpace(tail)
    ensures Trim(s) != "" ==> !IsSpace(Trim(s)[0]) && !IsSpace(Trim(s)[|Trim(s)| - 1])
    decreases |s|
  {
    head, tail := "", "";
    if s != [] && IsSpace(s[0]) {
      head, tail := TrimMeaning(s[1..]);
      head := [s[0]] + head;
    } else if s != [] && IsSpace(s[|s| - 1]) {
      head, tail := TrimMeaning(s[..|s| - 1]);
      tail := tail + [s[|s| - 1]];
    }
  }

  predicate FourField(id: Identity, p: Profile) {
    && Trim(p.identity.vendor) == Trim(id.vendor) && Trim(p.identity.revision) == Trim(id.revision)
    && Trim(p.identity.specific) == Trim(id.specific) && Trim(p.identity.date) == Trim(id.date)
  }

  predicate Exact(id: Identity, p: Profile) { FourField(id, p) && Trim(p.identity.product) == Trim(id.product) }

  function FourFor(id: Identity): Profile -> bool { p => FourField(id, p) }

  function ExactFor(id: Identity): Profile -> bool { p => Exact(id, p) }

  function Tagged(platform: Platform, list: seq<Profile>): (s: seq<Match>)
    ensures |s| == |list|
  {
    seq(|list|, i requires 0 <= i < |list| => Match(list[i], platform))
  }

  /** All entries, section by section. */
  function All(ps: Profiles): seq<Match> {
    Tagged(Mt1959A, ps.mt1959a) + Tagged(Mt1959B, ps.mt1959b) + Tagged(Renesas, ps.renesas)
  }

  /** The iterator's `find`: the first match and what follows it. */
  function Next(s: seq<Match>, test: Profile -> bool): Option<(Match, seq<Match>)> {
    if s == [] then None else if test(s[0].profile) then Some((s[0], s[1..])) else Next(s[1..], test)
  }

  /** `find_by_drive_id`. */
  function FindByDriveId(ps: Profiles, id: Identity): Option<Match> {
    var product := Trim(id.product);
    var exact := if product == "" then None else Next(All(ps), ExactFor(id));
    if exact.Some? then Some(exact.value.0) else
      var first := Next(All(ps), FourFor(id));
      if first.None? then None
      else if Next(first.value.1, FourFor(id)).Some? && product != "" then None
      else Some(first.value.0)
  }

  // ----- what the catalog holds, whatever its order -----

  /** The profiles of a catalog, without platform. */
  function Listed(ps: Profiles): seq<Profile> { ps.mt1959a + ps.mt1959b + ps.renesas }

  function Filter<T(!new)>(s: seq<T>, test: T -> bool): (r: seq<T>)
    ensures forall p :: p in r <==> p in s && test(p)
  {
    if s == [] then [] else (if test(s[0]) then [s[0]] else []) + Filter(s[1..], test)
  }

  function Names(s: seq<Match>): (r: seq<Profile>)
    ensures |r| == |s|
  {
    seq(|s|, i requires 0 <= i < |s| => s[i].profile)
  }

  /** A test on the profile of an entry. */
  function On(test: Profile -> bool): Match -> bool { (m: Match) => test(m.profile) }

  lemma AllListed(ps: Profiles)
    ensures Names(All(ps)) == Listed(ps)
  {
  }

  lemma {:induction false} FilterNames(s: seq<Match>, test: Profile -> bool)
    ensures Names(Filter(s, On(test))) == Filter(Names(s), test)
  {
    if s != [] {
      assert Names(s)[1..] == Names(s[1..]);
      FilterNames(s[1..], test);
      assert Names(Filter(s, On(test))) ==
             (if test(s[0].profile) then [s[0].profile] else []) + Names(Filter(s[1..], On(test)));
    }
  }

  /** Each pass in terms of the filtered catalog. */
  lemma {:induction false} NextFilter(s: seq<Match>, test: Profile -> bool)
    ensures Next(s, test).None? <==> Filter(s, On(test)) == []
    ensures Next(s, test).Some? ==>
              Filter(s, On(test)) == [Next(s, test).value.0] + Filter(Next(s, test).value.1, On(test))
  {
    if s != [] { NextFilter(s[1..], test); }
  }

  /** The entries a drive's answer may come from. */
  function Candidates(listed: seq<Profile>, id: Identity): seq<Profile> {
    var exact := if Trim(id.product) == "" then [] else Filter(listed, ExactFor(id));
    var four := Filter(listed, FourFor(id));
    if exact != [] then exact
    else if Trim(id.product) == "" || |four| == 1 then four
    else []
  }

  /** The same entries with their platforms. */
  function Contenders(s: seq<Match>, id: Identity): seq<Match> {
    var exact := if Trim(id.product) == "" then [] else Filter(s, On(ExactFor(id)));
    var four := Filter(s, On(FourFor(id)));
    if exact != [] then exact
    else if Trim(id.product) == "" || |four| == 1 then four
    else []
  }

  lemma ContenderNames(ps: Profiles, id: Identity)
    ensures Names(Contenders(All(ps), id)) == Candidates(Listed(ps), id)
  {
    AllListed(ps);
    FilterNames(All(ps), ExactFor(id));
    FilterNames(All(ps), FourFor(id));
  }

  /** The answer is the first contender: an exact match if the drive names a product and there is one,
      else the unique four-field match, else, for a nameless drive, the first of them. */
  lemma FindContender(ps: Profiles, id: Identity)
    ensures var c := Contenders(All(ps), id); FindByDriveId(ps, id) == if c == [] then None else Some(c[0])
  {
    NextFilter(All(ps), ExactFor(id));
    NextFilter(All(ps), FourFor(id));
    var first := Next(All(ps), FourFor(id));
    if first.Some? { NextFilter(first.value.1, FourFor(id)); }
  }

  lemma FindCandidate(ps: Profiles, id: Identity)
    ensures var c := Candidates(Listed(ps), id);
      && (FindByDriveId(ps, id).None? <==> c == [])
      && (c != [] ==> FindByDriveId(ps, id).value.profile == c[0])
  {
    hide FindByDriveId; hide Contenders; hide Candidates;
    FindContender(ps, id);
    ContenderNames(ps, id);
    var c := Contenders(All(ps), id);
    assert |Names(c)| == |c| && (c != [] ==> Names(c)[0] == c[0].profile);
  }

  /** What an answer has in common with the drive: vendor, revision, specific and date, surrounding white
      space apart; and the product too, whenever some entry has all five. */
  lemma AnswerFields(ps: Profiles, id: Identity)
    ensures FindByDriveId(ps, id).Some? ==>
              var found := FindByDriveId(ps, id).value.profile.identity;
              && Trim(found.vendor) == Trim(id.vendor) && Trim(found.revision) == Trim(id.revision)
              && Trim(found.specific) == Trim(id.specific) && Trim(found.date) == Trim(id.date)
    ensures Trim(id.product) != "" && (exists p <- Listed(ps) :: Alike(p.identity, id)) ==>
              FindByDriveId(ps, id).Some? && Alike(FindByDriveId(ps, id).value.profile.identity, id)
    ensures FindByDriveId(ps, id).Some? ==> FindByDriveId(ps, id).value.profile in Listed(ps)
  {
    hide Trim; hide FindByDriveId; hide Filter;
    FindCandidate(ps, id);
    var c := Candidates(Listed(ps), id);
    assert c != [] ==> c[0] in c;
    forall p | p in Listed(ps) && Alike(p.identity, id) ensures p in Filter(Listed(ps), ExactFor(id)) {
    }
  }

  /** All five fields agree, surrounding white space apart. */
  predicate Alike(a: Identity, b: Identity) {
    && Trim(a.vendor) == Trim(b.vendor) && Trim(a.product) == Trim(b.product) && Trim(a.revision) == Trim(b.revision)
    && Trim(a.specific) == Trim(b.specific) && Trim(a.date) == Trim(b.date)
  }

  /** With a product named, an answer that is not exact is the only entry with its four fields. */
  lemma NonExactUnique(ps: Profiles, id: Identity)
    requires Trim(id.product) != "" && FindByDriveId(ps, id).Some? && !Exact(id, FindByDriveId(ps, id).value.profile)
    ensures Filter(Listed(ps), FourFor(id)) == [FindByDriveId(ps, id).value.profile]
  {
    FindCandidate(ps, id);
    var c := Candidates(Listed(ps), id);
    assert c[0] in c;
  }

  // ----- permutations -----

  /** The same entries in another order, within or across sections. */
  ghost predicate Permuted(ps: Profiles, qs: Profiles) { multiset(Listed(ps)) == multiset(Listed(qs)) }

  lemma {:induction false} FilterMultiset<T(!new)>(s: seq<T>, test: T -> bool, p: T)
    ensures multiset(Filter(s, test))[p] == if test(p) then multiset(s)[p] else 0
  {
    if s != [] {
      FilterMultiset(s[1..], test, p);
      assert s == [s[0]] + s[1..];
      assert multiset(Filter(s, test)) == multiset(if test(s[0]) then [s[0]] else []) + multiset(Filter(s[1..], test));
    }
  }

  lemma FilterPermuted<T(!new)>(s: seq<T>, t: seq<T>, test: T -> bool)
    requires multiset(s) == multiset(t)
    ensures multiset(Filter(s, test)) == multiset(Filter(t, test)) && |Filter(s, test)| == |Filter(t, test)|
  {
    forall p ensures multiset(Filter(s, test))[p] == multiset(Filter(t, test))[p] {
      FilterMultiset(s, test, p);
      FilterMultiset(t, test, p);
    }
    assert multiset(Filter(s, test)) == multiset(Filter(t, test));
    assert |multiset(Filter(s, test))| == |Filter(s, test)| && |multiset(Filter(t, test))| == |Filter(t, test)|;
  }

  lemma CandidatesPermuted(s: seq<Profile>, t: seq<Profile>, id: Identity)
    requires multiset(s) == multiset(t)
    ensures multiset(Candidates(s, id)) == multiset(Candidates(t, id)) && |Candidates(s, id)| == |Candidates(t, id)|
  {
    FilterPermuted(s, t, ExactFor(id));
    FilterPermuted(s, t, FourFor(id));
  }

  function Answer(ps: Profiles, id: Identity): Option<Profile> {
    var m := FindByDriveId(ps, id);
    if m.None? then None else Some(m.value.profile)
  }

  /** Whether the order of the catalog cannot matter: no two different entries compete. */
  predicate Settled(ps: Profiles, id: Identity) {
    var c := Candidates(Listed(ps), id);
    forall i :: 0 <= i < |c| ==> c[i] == c[0]
  }

  lemma {:induction false} Stable(ps: Profiles, qs: Profiles, id: Identity)
    requires Permuted(ps, qs) && Settled(ps, id)
    ensures Answer(ps, id) == Answer(qs, id)
  {
    FindCandidate(ps, id);
    FindCandidate(qs, id);
    var c, d := Candidates(Listed(ps), id), Candidates(Listed(qs), id);
    CandidatesPermuted(Listed(ps), Listed(qs), id);
    if d != [] {
      assert d[0] in multiset(d) && d[0] in multiset(c);
    }
  }

  lemma {:induction false} SplitAt(s: seq<Profile>, i: nat)
    requires i < |s|
    ensures multiset([s[i]] + s[..i] + s[i + 1..]) == multiset(s)
  {
    assert s == s[..i] + [s[i]] + s[i + 1..];
  }

  /** Two competing entries: bringing the other one to the front of the first section changes the answer. */
  lemma Unstable(ps: Profiles, id: Identity) returns (qs: Profiles)
    requires !Settled(ps, id)
    ensures Permuted(ps, qs) && Answer(ps, id) != Answer(qs, id)
  {
    hide Candidates; hide FindByDriveId;
    var s := Listed(ps);
    CandidatesListed(s, id);
    var c := Candidates(s, id);
    var i :| 0 <= i < |c| && c[i] != c[0];
    assert c[i] in c && c[i] in s;
    var j :| 0 <= j < |s| && s[j] == c[i];
    qs := Profiles([s[j]] + s[..j] + s[j + 1..], [], []);
    SplitAt(s, j);
    assert Listed(qs) == [s[j]] + s[..j] + s[j + 1..];
    CandidatesPermuted(s, Listed(qs), id);
    assert c[i] in multiset(c) && c[i] in multiset(Candidates(Listed(qs), id));
    CandidateFront(Listed(qs), id);
    FindCandidate(ps, id);
    FindCandidate(qs, id);
  }

  lemma CandidatesListed(s: seq<Profile>, id: Identity)
    ensures forall p <- Candidates(s, id) :: p in s
  {
  }

  /** A candidate at the front of the catalog is the first candidate. */
  lemma CandidateFront(s: seq<Profile>, id: Identity)
    requires s != [] && s[0] in Candidates(s, id)
    ensures Candidates(s, id)[0] == s[0]
  {
    if ExactFor(id)(s[0]) { FrontFirst(s, ExactFor(id)); }
    if FourFor(id)(s[0]) { FrontFirst(s, FourFor(id)); }
  }

  lemma FrontFirst(s: seq<Profile>, test: Profile -> bool)
    requires s != [] && test(s[0])
    ensures Filter(s, test) != [] && Filter(s, test)[0] == s[0]
  {
  }

  /** Exactly when the order does not matter. */
  lemma OrderIrrelevant(ps: Profiles, id: Identity)
    ensures Settled(ps, id) <==> forall qs :: Permuted(ps, qs) ==> Answer(ps, id) == Answer(qs, id)
  {
    if Settled(ps, id) {
      forall qs | Permuted(ps, qs) ensures Answer(ps, id) == Answer(qs, id) { Stable(ps, qs, id); }
    } else {
      var qs := Unstable(ps, id);
      assert Permuted(ps, qs);
    }
  }

  lemma NamelessFirst(p: Profile, q: Profile, id: Identity)
    requires Trim(id.product) == "" && FourField(id, p)
    ensures Answer(Profiles([p, q], [], []), id) == Some(p)
  {
    hide Trim; hide FindByDriveId; hide FourField;
    var one := Profiles([p, q], [], []);
    assert Listed(one) == [p, q];
    FindCandidate(one, id);
    assert [p, q][0] == p && p in [p, q] && FourFor(id)(p);
    assert p in Filter([p, q], FourFor(id));
    CandidateFront([p, q], id);
  }

  /** A drive that reports no product takes whichever of two profiles with its fields comes first. */
  lemma NamelessOrder(p: Profile, q: Profile, id: Identity)
    requires Trim(id.product) == "" && FourField(id, p) && FourField(id, q) && p != q
    ensures Permuted(Profiles([p, q], [], []), Profiles([q, p], [], []))
    ensures Answer(Profiles([p, q], [], []), id) != Answer(Profiles([q, p], [], []), id)
  {
    hide Trim; hide FindByDriveId; hide FourField;
    assert Listed(Profiles([p, q], [], [])) == [p, q] && Listed(Profiles([q, p], [], [])) == [q, p];
    assert multiset([p, q]) == multiset{p, q} == multiset([q, p]);
    NamelessFirst(p, q, id);
    NamelessFirst(q, p, id);
  }

  // ----- permutations within the sections -----

  /** Each section holds the same entries in another order. */
  ghost predicate Reordered(ps: Profiles, qs: Profiles) {
    && multiset(ps.mt1959a) == multiset(qs.mt1959a) && multiset(ps.mt1959b) == multiset(qs.mt1959b)
    && multiset(ps.renesas) == multiset(qs.renesas)
  }

  lemma {:induction false} TaggedMultiset(platform: Platform, s: seq<Profile>, m: Match)
    ensures multiset(Tagged(platform, s))[m] == if m.platform == platform then multiset(s)[m.profile] else 0
  {
    if s != [] {
      TaggedMultiset(platform, s[1..], m);
      assert s == [s[0]] + s[1..];
      assert Tagged(platform, s) == [Match(s[0], platform)] + Tagged(platform, s[1..]);
    }
  }

  lemma TaggedPermuted(platform: Platform, s: seq<Profile>, t: seq<Profile>)
    requires multiset(s) == multiset(t)
    ensures multiset(Tagged(platform, s)) == multiset(Tagged(platform, t))
  {
    forall m ensures multiset(Tagged(platform, s))[m] == multiset(Tagged(platform, t))[m] {
      TaggedMultiset(platform, s, m);
      TaggedMultiset(platform, t, m);
    }
  }

  lemma ContendersReordered(ps: Profiles, qs: Profiles, id: Identity)
    requires Reordered(ps, qs)
    ensures Permuted(ps, qs) && multiset(All(ps)) == multiset(All(qs))
    ensures multiset(Contenders(All(ps), id)) == multiset(Contenders(All(qs), id))
  {
    TaggedPermuted(Mt1959A, ps.mt1959a, qs.mt1959a);
    TaggedPermuted(Mt1959B, ps.mt1959b, qs.mt1959b);
    TaggedPermuted(Renesas, ps.renesas, qs.renesas);
    FilterPermuted(All(ps), All(qs), On(ExactFor(id)));
    FilterPermuted(All(ps), All(qs), On(FourFor(id)));
  }

  function Rank(platform: Platform): nat {
    match platform
    case Mt1959A => 0
    case Mt1959B => 1
    case Renesas => 2
  }

  ghost predicate Ordered(s: seq<Match>) {
    forall i, j :: 0 <= i < j < |s| ==> Rank(s[i].platform) <= Rank(s[j].platform)
  }

  lemma {:induction false} FilterForemost(s: seq<Match>, test: Match -> bool)
    requires Ordered(s)
    ensures forall m <- Filter(s, test) :: Rank(Filter(s, test)[0].platform) <= Rank(m.platform)
  {
    if s != [] { FilterForemost(s[1..], test); }
  }

  /** The answer comes from the first section that holds a contender. */
  lemma ContenderForemost(ps: Profiles, id: Identity)
    ensures var c := Contenders(All(ps), id); forall m <- c :: Rank(c[0].platform) <= Rank(m.platform)
  {
    FilterForemost(All(ps), On(ExactFor(id)));
    FilterForemost(All(ps), On(FourFor(id)));
  }

  /** No two different entries of that section compete. */
  ghost predicate SettledWithin(ps: Profiles, id: Identity) {
    var c := Contenders(All(ps), id);
    forall m <- c :: m.platform == c[0].platform ==> m == c[0]
  }

  lemma StableWithin(ps: Profiles, qs: Profiles, id: Identity)
    requires Reordered(ps, qs) && SettledWithin(ps, id)
    ensures FindByDriveId(ps, id) == FindByDriveId(qs, id)
  {
    hide FindByDriveId; hide Contenders; hide All;
    FindContender(ps, id);
    FindContender(qs, id);
    ContendersReordered(ps, qs, id);
    ContenderForemost(ps, id);
    ContenderForemost(qs, id);
    var c, d := Contenders(All(ps), id), Contenders(All(qs), id);
    assert |multiset(c)| == |multiset(d)|;
    if c != [] {
      assert c[0] in multiset(c) && c[0] in multiset(d) && d[0] in multiset(d) && d[0] in multiset(c);
      assert Rank(c[0].platform) == Rank(d[0].platform);
    }
  }

  /** A section with its entry `i` brought to the front. */
  function Fronted(s: seq<Profile>, i: nat): seq<Profile>
    requires i < |s|
  {
    [s[i]] + s[..i] + s[i + 1..]
  }

  lemma {:induction false} FilterConcat<T(!new)>(s: seq<T>, t: seq<T>, test: T -> bool)
    ensures Filter(s + t, test) == Filter(s, test) + Filter(t, test)
  {
    if s == [] {
      assert s + t == t;
    } else {
      assert (s + t)[1..] == s[1..] + t;
      FilterConcat(s[1..], t, test);
    }
  }

  lemma {:induction false} FilterNone<T(!new)>(s: seq<T>, test: T -> bool)
    requires forall x <- s :: !test(x)
    ensures Filter(s, test) == []
  {
    if s != [] { FilterNone(s[1..], test); }
  }

  /** An entry that passes, in front of its section, with nothing that passes before it. */
  lemma FilterFronted(pre: seq<Match>, m: Match, post: seq<Match>, test: Match -> bool)
    requires test(m) && forall x <- Filter(pre + [m] + post, test) :: Rank(m.platform) <= Rank(x.platform)
    requires forall x <- pre :: Rank(x.platform) < Rank(m.platform)
    ensures Filter(pre + [m] + post, test) != [] && Filter(pre + [m] + post, test)[0] == m
  {
    FilterConcat(pre, [m] + post, test);
    assert pre + [m] + post == pre + ([m] + post);
    forall x | x in pre ensures !test(x) { assert x in pre + [m] + post; }
    assert Filter(pre, test) == [] by { FilterNone(pre, test); }
    assert ([m] + post)[1..] == post;
  }

  lemma ContenderFronted(pre: seq<Match>, m: Match, post: seq<Match>, id: Identity)
    requires var c := Contenders(pre + [m] + post, id); m in c && forall x <- c :: Rank(m.platform) <= Rank(x.platform)
    requires forall x <- pre :: Rank(x.platform) < Rank(m.platform)
    ensures Contenders(pre + [m] + post, id)[0] == m
  {
    var s := pre + [m] + post;
    if Contenders(s, id) == Filter(s, On(ExactFor(id))) {
      FilterFronted(pre, m, post, On(ExactFor(id)));
    } else {
      FilterFronted(pre, m, post, On(FourFor(id)));
    }
  }

  function Front(ps: Profiles, platform: Platform, i: nat): Profiles
    requires i < |Section(ps, platform)|
  {
    match platform
    case Mt1959A => ps.(mt1959a := Fronted(ps.mt1959a, i))
    case Mt1959B => ps.(mt1959b := Fronted(ps.mt1959b, i))
    case Renesas => ps.(renesas := Fronted(ps.renesas, i))
  }

  function Section(ps: Profiles, platform: Platform): seq<Profile> {
    match platform case Mt1959A => ps.mt1959a case Mt1959B => ps.mt1959b case Renesas => ps.renesas
  }

  lemma InSection(ps: Profiles, m: Match) returns (i: nat)
    requires m in All(ps)
    ensures i < |Section(ps, m.platform)| && Section(ps, m.platform)[i] == m.profile
  {
    i :| i < |Section(ps, m.platform)| && Section(ps, m.platform)[i] == m.profile;
  }

  /** The catalog around the entry brought to the front of its section. */
  lemma FrontSplit(ps: Profiles, m: Match, i: nat) returns (pre: seq<Match>, post: seq<Match>)
    requires i < |Section(ps, m.platform)| && Section(ps, m.platform)[i] == m.profile
    ensures All(Front(ps, m.platform, i)) == pre + [m] + post && Reordered(ps, Front(ps, m.platform, i))
    ensures forall x <- pre :: Rank(x.platform) < Rank(m.platform)
  {
    var s, qs := Section(ps, m.platform), Front(ps, m.platform, i);
    SplitAt(s, i);
    assert Tagged(m.platform, Fronted(s, i)) == [m] + Tagged(m.platform, s[..i] + s[i + 1..]);
    var rest := Tagged(m.platform, s[..i] + s[i + 1..]);
    match m.platform
    case Mt1959A => pre, post := [], rest + Tagged(Mt1959B, ps.mt1959b) + Tagged(Renesas, ps.renesas);
    case Mt1959B => pre, post := Tagged(Mt1959A, ps.mt1959a), rest + Tagged(Renesas, ps.renesas);
    case Renesas => pre, post := Tagged(Mt1959A, ps.mt1959a) + Tagged(Mt1959B, ps.mt1959b), rest;
  }

  /** Two of them competing: bringing the other one to the front of the section changes the answer. */
  lemma UnstableWithin(ps: Profiles, id: Identity) returns (qs: Profiles)
    requires !SettledWithin(ps, id)
    ensures Reordered(ps, qs) && FindByDriveId(ps, id) != FindByDriveId(qs, id)
  {
    hide FindByDriveId; hide Contenders; hide All; hide Section; hide Front;
    var c := Contenders(All(ps), id);
    var m :| m in c && m.platform == c[0].platform && m != c[0];
    ContenderListed(All(ps), id, m);
    var i := InSection(ps, m);
    qs := Front(ps, m.platform, i);
    var pre, post := FrontSplit(ps, m, i);
    ContendersReordered(ps, qs, id);
    var d := Contenders(All(qs), id);
    assert m in multiset(c) && m in multiset(d);
    forall x <- d ensures Rank(m.platform) <= Rank(x.platform) {
      ContenderForemost(ps, id);
      assert x in multiset(d) && x in multiset(c);
    }
    ContenderFronted(pre, m, post, id);
    FindContender(ps, id);
    FindContender(qs, id);
  }

  lemma ContenderListed(s: seq<Match>, id: Identity, m: Match)
    requires m in Contenders(s, id)
    ensures m in s
  {
  }

  /** Exactly when the order within the sections does not matter, platform of the answer included. */
  lemma OrderWithin(ps: Profiles, id: Identity)
    ensures SettledWithin(ps, id) <==> forall qs :: Reordered(ps, qs) ==> FindByDriveId(ps, id) == FindByDriveId(qs, id)
  {
    if SettledWithin(ps, id) {
      forall qs | Reordered(ps, qs) ensures FindByDriveId(ps, id) == FindByDriveId(qs, id) { StableWithin(ps, qs, id); }
    } else {
      var qs := UnstableWithin(ps, id);
      assert Reordered(ps, qs);
    }
  }

  lemma OneContender(ps: Profiles, id: Identity)
    requires Trim(id.product) != "" && |Filter(Listed(ps), ExactFor(id))| <= 1
    ensures Settled(ps, id) && SettledWithin(ps, id)
  {
    hide Trim; hide Listed; hide All; hide Contenders; hide Filter;
    ContenderNames(ps, id);
    var c := Contenders(All(ps), id);
    assert |c| == |Names(c)| == |Candidates(Listed(ps), id)| <= 1;
    assert forall m <- c :: m == c[0];
  }

  /** A named product with at most one exact match: any order of the catalog gives the same profile, any
      order within the sections the same profile on the same platform. */
  lemma StableWhenNamed(ps: Profiles, qs: Profiles, id: Identity)
    requires Permuted(ps, qs) && Trim(id.product) != "" && |Filter(Listed(ps), ExactFor(id))| <= 1
    ensures Answer(ps, id) == Answer(qs, id)
    ensures Reordered(ps, qs) ==> FindByDriveId(ps, id) == FindByDriveId(qs, id)
  {
    hide FindByDriveId; hide Trim; hide Settled; hide SettledWithin; hide Answer; hide Filter;
    OneContender(ps, id);
    Stable(ps, qs, id);
    if Reordered(ps, qs) { StableWithin(ps, qs, id); }
  }
}
