/**
 What a participant may learn from the wake-up
 (crates/liz-app-server/src/runtime/context_assembler.rs).
 */
module Disclosure {
  import opened Common

  datatype TrustLevel = Owner | Trusted | Acquaintance | Stranger

  datatype InfoBoundary = InfoBoundary(
    sharedTopics: seq<string>, forbiddenTopics: seq<string>, shareActiveState: bool, shareCommitments: bool)

  const OWNER_BOUNDARY := InfoBoundary([], [], true, true)

  datatype ActorKind =
    | OwnerActor | HumanContact | StrangerActor | ExternalAgent | LocalNode | RemoteNode | SystemService
    | WebhookSource | Automation

  datatype DisclosurePolicy = DisclosurePolicy(
    allowedTopics: seq<string>, forbiddenTopics: seq<string>,
    shareActiveState: bool, shareCommitments: bool, shareIdentity: bool)

  const OWNER_POLICY := DisclosurePolicy([], [], true, true, true)

  datatype InteractionContext = InteractionContext(actor: ActorKind, disclosure: DisclosurePolicy)

  datatype Citation = Citation(threadId: string, turnId: Option<string>, artifactId: Option<string>, note: string)

  datatype Fact = Fact(id: string, subject: string, value: string, invalidated: bool, citations: seq<Citation>)

  datatype RelationshipEntry = RelationshipEntry(personId: string, trust: TrustLevel, boundary: InfoBoundary)

  datatype Snapshot = Snapshot(
    identitySummary: Option<string>, activeState: Option<string>, facts: seq<Fact>,
    recentTopics: seq<string>, recentKeywords: seq<string>,
    relationships: seq<RelationshipEntry>, strangerBoundary: InfoBoundary)

  /** The thread fields the wake-up reads. */
  datatype ThreadState = ThreadState(activeSummary: Option<string>, pendingCommitments: seq<string>)

  datatype Relationship = Relationship(trust: TrustLevel, boundary: InfoBoundary, disclosure: Option<DisclosurePolicy>)

  datatype Wakeup = Wakeup(
    identitySummary: Option<string>, activeState: Option<string>, relevantFacts: seq<string>,
    openCommitments: seq<string>, recentTopics: seq<string>, recentKeywords: seq<string>, citationFactIds: seq<string>,
    citations: seq<Citation>)

  // ---------------------------------------------------------------------------------------
  // Who is asking
  // ---------------------------------------------------------------------------------------

  function ActorTrust(kind: ActorKind): TrustLevel {
    match kind
    case OwnerActor => Owner
    case HumanContact => Trusted
    case ExternalAgent => Trusted
    case LocalNode => Acquaintance
    case RemoteNode => Acquaintance
    case SystemService => Acquaintance
    case StrangerActor => Stranger
    case WebhookSource => Stranger
    case Automation => Stranger
  }

  function FindEntry(entries: seq<RelationshipEntry>, person: string): Option<RelationshipEntry> {
    if entries == [] then None
    else if entries[0].personId == person then Some(entries[0])
    else FindEntry(entries[1..], person)
  }

  function Resolve(s: Snapshot, participant: Option<string>, context: Option<InteractionContext>): Relationship {
    if context.Some? then
      var d := context.value.disclosure;
      Relationship(ActorTrust(context.value.actor),
                   InfoBoundary(d.allowedTopics, d.forbiddenTopics, d.shareActiveState, d.shareCommitments), Some(d))
    else if participant.None? then Relationship(Stranger, s.strangerBoundary, None)
    else if participant.value == "owner" then Relationship(Owner, OWNER_BOUNDARY, Some(OWNER_POLICY))
    else
      var entry := FindEntry(s.relationships, participant.value);
      if entry.Some? then Relationship(entry.value.trust, entry.value.boundary, None)
      else Relationship(Stranger, s.strangerBoundary, None)
  }

  // ---------------------------------------------------------------------------------------
  // What may be shown
  // ---------------------------------------------------------------------------------------

  /** Some topic that is not blank occurs in the text, whatever the case of ASCII letters. */
  predicate Mentions(text: string, topics: seq<string>) {
    exists topic <- topics :: !IsBlank(topic) && Contains(AsciiLower(text), AsciiLower(topic))
  }

  predicate AllowsText(r: Relationship, text: string) {
    if r.trust == Owner then true
    else if Mentions(text, r.boundary.forbiddenTopics) then false
    else if r.trust == Trusted then r.boundary.sharedTopics == [] || Mentions(text, r.boundary.sharedTopics)
    else false
  }

  predicate AllowsActiveState(r: Relationship) {
    r.trust == Owner || r.boundary.shareActiveState
  }

  predicate Visible(r: Relationship, f: Fact) {
    !f.invalidated && AllowsText(r, f.value)
  }

  /** The elements a filter keeps, in order. */
  function Kept<T>(s: seq<T>, p: T -> bool): seq<T> {
    if s == [] then []
    else Kept(s[..|s| - 1], p) + if p(s[|s| - 1]) then [s[|s| - 1]] else []
  }

  function Sees(r: Relationship): Fact -> bool {
    f => Visible(r, f)
  }

  function VisibleFacts(r: Relationship, facts: seq<Fact>): seq<Fact> {
    Kept(facts, Sees(r))
  }

  function AllowedTexts(r: Relationship, texts: seq<string>): seq<string> {
    Kept(texts, text => AllowsText(r, text))
  }

  function Render(f: Fact): string {
    f.subject + ": " + f.value
  }

  function RenderAll(facts: seq<Fact>): seq<string> {
    seq(|facts|, i requires 0 <= i < |facts| => Render(facts[i]))
  }

  function Ids(facts: seq<Fact>): seq<string> {
    seq(|facts|, i requires 0 <= i < |facts| => facts[i].id)
  }

  /** Citations are taken from every fact that holds, whoever asks. */
  function CitedBy(f: Fact): seq<Citation> {
    if f.invalidated then [] else f.citations
  }

  function Cited(facts: seq<Fact>): seq<Citation> {
    if facts == [] then [] else Cited(facts[..|facts| - 1]) + CitedBy(facts[|facts| - 1])
  }

  function ShownIdentity(s: Snapshot, r: Relationship): Option<string> {
    if r.trust == Owner || (r.disclosure.Some? && r.disclosure.value.shareIdentity) then s.identitySummary else None
  }

  function ShownActiveState(s: Snapshot, thread: ThreadState, r: Relationship): Option<string> {
    if !AllowsActiveState(r) then None
    else
      var state := if s.activeState.Some? then s.activeState else thread.activeSummary;
      if state.Some? && AllowsText(r, state.value) then state else None
  }

  function WakeupFor(s: Snapshot, thread: ThreadState, r: Relationship): Wakeup {
    Wakeup(
      ShownIdentity(s, r),
      ShownActiveState(s, thread, r),
      RenderAll(Take(VisibleFacts(r, s.facts), 3)),
      if r.boundary.shareCommitments then AllowedTexts(r, thread.pendingCommitments) else [],
      if AllowsActiveState(r) then AllowedTexts(r, s.recentTopics) else [],
      if AllowsActiveState(r) then AllowedTexts(r, s.recentKeywords) else [],
      Ids(Take(VisibleFacts(r, s.facts), 3)),
      Take(Cited(s.facts), 3))
  }

  function Assemble(s: Snapshot, thread: ThreadState, participant: Option<string>, context: Option<InteractionContext>):
    Wakeup
  {
    WakeupFor(s, thread, Resolve(s, participant, context))
  }

  // ---------------------------------------------------------------------------------------
  // Edits of facts a participant does not see
  // ---------------------------------------------------------------------------------------

  datatype Edit = Insert(at: nat, fact: Fact) | Remove(at: nat) | Alter(at: nat, fact: Fact)

  predicate InRange(e: Edit, n: nat) {
    if e.Insert? then e.at <= n else e.at < n
  }

  function Apply(facts: seq<Fact>, e: Edit): seq<Fact>
    requires InRange(e, |facts|)
  {
    match e
    case Insert(at, fact) => facts[..at] + [fact] + facts[at..]
    case Remove(at) => facts[..at] + facts[at + 1..]
    case Alter(at, fact) => facts[at := fact]
  }

  /** The edit touches only facts that are not seen, before and after. */
  predicate IsHidden(sees: Fact -> bool, facts: seq<Fact>, e: Edit) {
    && InRange(e, |facts|)
    && (!e.Insert? ==> !sees(facts[e.at]))
    && (!e.Remove? ==> !sees(e.fact))
  }

  /** `g` is reached from `f` by edits that are hidden one by one. */
  predicate HiddenEdits(sees: Fact -> bool, f: seq<Fact>, edits: seq<Edit>, g: seq<Fact>)
    decreases |edits|
  {
    if edits == [] then f == g
    else IsHidden(sees, f, edits[0]) && HiddenEdits(sees, Apply(f, edits[0]), edits[1..], g)
  }

  lemma {:induction false} KeptConcat<T>(s: seq<T>, t: seq<T>, p: T -> bool)
    ensures Kept(s + t, p) == Kept(s, p) + Kept(t, p)
  {
    if t == [] {
      assert s + t == s;
    } else {
      assert (s + t)[..|s + t| - 1] == s + t[..|t| - 1];
      KeptConcat(s, t[..|t| - 1], p);
    }
  }

  lemma HiddenMiddle<T>(s: seq<T>, x: T, t: seq<T>, p: T -> bool)
    requires !p(x)
    ensures Kept(s + [x] + t, p) == Kept(s + t, p)
  {
    KeptConcat(s + [x], t, p);
    KeptConcat(s, [x], p);
    KeptConcat(s, t, p);
    assert [x][..0] == [];
  }

  lemma HiddenEditKeepsView(sees: Fact -> bool, facts: seq<Fact>, e: Edit)
    requires IsHidden(sees, facts, e)
    ensures Kept(Apply(facts, e), sees) == Kept(facts, sees)
  {
    match e
    case Insert(at, fact) =>
      HiddenMiddle(facts[..at], fact, facts[at..], sees);
      assert facts == facts[..at] + facts[at..];
    case Remove(at) =>
      HiddenMiddle(facts[..at], facts[at], facts[at + 1..], sees);
      assert facts == facts[..at] + [facts[at]] + facts[at + 1..];
    case Alter(at, fact) =>
      HiddenMiddle(facts[..at], fact, facts[at + 1..], sees);
      HiddenMiddle(facts[..at], facts[at], facts[at + 1..], sees);
      assert facts == facts[..at] + [facts[at]] + facts[at + 1..];
      assert facts[at := fact] == facts[..at] + [fact] + facts[at + 1..];
  }

  lemma {:induction false} HiddenEditsKeepView(sees: Fact -> bool, f: seq<Fact>, edits: seq<Edit>, g: seq<Fact>)
    requires HiddenEdits(sees, f, edits, g)
    ensures Kept(f, sees) == Kept(g, sees)
    decreases |edits|
  {
    if edits != [] {
      HiddenEditKeepsView(sees, f, edits[0]);
      HiddenEditsKeepView(sees, Apply(f, edits[0]), edits[1..], g);
    }
  }

  lemma SameViewSameFilteredFields(s: Snapshot, facts: seq<Fact>, thread: ThreadState, r: Relationship)
    requires VisibleFacts(r, facts) == VisibleFacts(r, s.facts)
    ensures WakeupFor(s.(facts := facts), thread, r) == WakeupFor(s, thread, r).(citations := Take(Cited(facts), 3))
  {
  }

  /**
   Adding, removing or altering facts a participant may not see changes nothing in the wake-up
   but the citations: the complete wake-up is the same exactly when the first three citations are.
   */
  lemma HiddenFactsShowOnlyInCitations(
      s: Snapshot, thread: ThreadState, participant: Option<string>, context: Option<InteractionContext>,
      edits: seq<Edit>, facts: seq<Fact>)
    requires HiddenEdits(Sees(Resolve(s, participant, context)), s.facts, edits, facts)
    ensures var before := Assemble(s, thread, participant, context);
      var after := Assemble(s.(facts := facts), thread, participant, context);
      && after == before.(citations := Take(Cited(facts), 3))
      && (after == before <==> Take(Cited(facts), 3) == Take(Cited(s.facts), 3))
  {
    var r := Resolve(s, participant, context);
    HiddenEditsKeepView(Sees(r), s.facts, edits, facts);
    SameViewSameFilteredFields(s, facts, thread, r);
    assert Resolve(s.(facts := facts), participant, context) == r;
  }

  lemma {:induction false} CitedConcat(f: seq<Fact>, g: seq<Fact>)
    ensures Cited(f + g) == Cited(f) + Cited(g)
  {
    if g == [] {
      assert f + g == f;
    } else {
      assert (f + g)[..|f + g| - 1] == f + g[..|g| - 1];
      CitedConcat(f, g[..|g| - 1]);
    }
  }

  lemma TakeBehind<T>(front: seq<T>, x: seq<T>, y: seq<T>, n: nat)
    ensures Take(front + x, n) == Take(front + y, n) <==> |front| >= n || Take(x, n - |front|) == Take(y, n - |front|)
  {
    if |front| >= n {
      assert Take(front + x, n) == front[..n] == Take(front + y, n);
    } else {
      assert Take(front + x, n) == front + Take(x, n - |front|);
      assert Take(front + y, n) == front + Take(y, n - |front|);
      assert Take(front + x, n)[|front|..] == Take(x, n - |front|);
      assert Take(front + y, n)[|front|..] == Take(y, n - |front|);
    }
  }

  /** The facts from the edited place on, once edited. */
  function EditedFrom(facts: seq<Fact>, e: Edit): seq<Fact>
    requires InRange(e, |facts|)
  {
    match e
    case Insert(at, fact) => [fact] + facts[at..]
    case Remove(at) => facts[at + 1..]
    case Alter(at, fact) => [fact] + facts[at + 1..]
  }

  lemma EditSplits(facts: seq<Fact>, e: Edit)
    requires InRange(e, |facts|)
    ensures facts == facts[..e.at] + facts[e.at..]
    ensures Apply(facts, e) == facts[..e.at] + EditedFrom(facts, e)
  {
    var front := facts[..e.at];
    match e
    case Insert(at, fact) => ConcatAssociates(front, [fact], facts[at..]);
    case Remove(at) =>
    case Alter(at, fact) =>
      assert facts[at := fact] == front + [fact] + facts[at + 1..];
      ConcatAssociates(front, [fact], facts[at + 1..]);
  }

  lemma SamePrefixCitedIff(a: seq<Fact>, x: seq<Fact>, y: seq<Fact>)
    ensures var used := |Cited(a)|;
      (Take(Cited(a + x), 3) == Take(Cited(a + y), 3)
       <==> used >= 3 || Take(Cited(x), 3 - used) == Take(Cited(y), 3 - used))
  {
    CitedConcat(a, x);
    CitedConcat(a, y);
    TakeBehind(Cited(a), Cited(x), Cited(y), 3);
  }

  /** Fewer than three citations stand before the place, and those from there on differ in what still fits. */
  predicate ChangesCitations(facts: seq<Fact>, e: Edit)
    requires InRange(e, |facts|)
  {
    var used := |Cited(facts[..e.at])|;
    used < 3 && Take(Cited(facts[e.at..]), 3 - used) != Take(Cited(EditedFrom(facts, e)), 3 - used)
  }

  lemma CitationsChangeIff(facts: seq<Fact>, e: Edit)
    requires InRange(e, |facts|)
    ensures Take(Cited(Apply(facts, e)), 3) != Take(Cited(facts), 3) <==> ChangesCitations(facts, e)
  {
    EditSplits(facts, e);
    SamePrefixCitedIff(facts[..e.at], facts[e.at..], EditedFrom(facts, e));
  }

  lemma SameFilteredFieldsSameWakeup(s: Snapshot, facts: seq<Fact>, thread: ThreadState, r: Relationship)
    requires VisibleFacts(r, facts) == VisibleFacts(r, s.facts)
    ensures WakeupFor(s.(facts := facts), thread, r) == WakeupFor(s, thread, r)
       <==> Take(Cited(facts), 3) == Take(Cited(s.facts), 3)
  {
    SameViewSameFilteredFields(s, facts, thread, r);
  }

  /** Exactly when one hidden edit shows in the wake-up. */
  lemma HiddenEditShowsIff(s: Snapshot, thread: ThreadState, r: Relationship, e: Edit)
    requires IsHidden(Sees(r), s.facts, e)
    ensures WakeupFor(s.(facts := Apply(s.facts, e)), thread, r) != WakeupFor(s, thread, r)
        <==> ChangesCitations(s.facts, e)
  {
    HiddenEditKeepsView(Sees(r), s.facts, e);
    SameFilteredFieldsSameWakeup(s, Apply(s.facts, e), thread, r);
    CitationsChangeIff(s.facts, e);
  }

  /** A fact that counts for a participant: it is seen, or it is cited. */
  function Counts(r: Relationship): Fact -> bool {
    f => Visible(r, f) || CitedBy(f) != []
  }

  lemma KeptSnoc<T>(s: seq<T>, x: T, p: T -> bool)
    ensures Kept(s + [x], p) == if p(x) then Kept(s, p) + [x] else Kept(s, p)
  {
    assert (s + [x])[..|s|] == s;
  }

  lemma {:induction false} KeptTwice<T>(s: seq<T>, p: T -> bool, q: T -> bool)
    requires forall x <- s :: p(x) ==> q(x)
    ensures Kept(Kept(s, q), p) == Kept(s, p)
  {
    if s != [] {
      var front, last := s[..|s| - 1], s[|s| - 1];
      assert s == front + [last];
      KeptTwice(front, p, q);
      KeptSnoc(front, last, p);
      KeptSnoc(front, last, q);
      KeptSnoc(Kept(front, q), last, p);
    }
  }

  lemma {:induction false} CitedKept(facts: seq<Fact>, q: Fact -> bool)
    requires forall f <- facts :: CitedBy(f) != [] ==> q(f)
    ensures Cited(Kept(facts, q)) == Cited(facts)
  {
    if facts != [] {
      var front, last := facts[..|facts| - 1], facts[|facts| - 1];
      assert facts == front + [last];
      CitedKept(front, q);
      CitedConcat(Kept(front, q), [last]);
      assert [last][..0] == [];
      assert Kept(front, q) + [] == Kept(front, q);
    }
  }

  lemma SameCountingSameView(r: Relationship, f: seq<Fact>, g: seq<Fact>)
    requires Kept(f, Counts(r)) == Kept(g, Counts(r))
    ensures VisibleFacts(r, f) == VisibleFacts(r, g) && Cited(f) == Cited(g)
  {
    KeptTwice(f, Sees(r), Counts(r));
    KeptTwice(g, Sees(r), Counts(r));
    CitedKept(f, Counts(r));
    CitedKept(g, Counts(r));
  }

  /** Facts that are neither seen nor cited do not show at all: the complete wake-up is unchanged. */
  lemma UncitedHiddenFactsDoNotShow(
      s: Snapshot, thread: ThreadState, participant: Option<string>, context: Option<InteractionContext>,
      edits: seq<Edit>, facts: seq<Fact>)
    requires HiddenEdits(Counts(Resolve(s, participant, context)), s.facts, edits, facts)
    ensures Assemble(s.(facts := facts), thread, participant, context) == Assemble(s, thread, participant, context)
  {
    var r := Resolve(s, participant, context);
    HiddenEditsKeepView(Counts(r), s.facts, edits, facts);
    SameCountingSameView(r, s.facts, facts);
    SameViewSameFilteredFields(s, facts, thread, r);
    assert Resolve(s.(facts := facts), participant, context) == r;
  }

  /** Edits of a list work the same with one more fact behind it. */
  lemma {:induction false} EditsBeforeTail(sees: Fact -> bool, f: seq<Fact>, edits: seq<Edit>, g: seq<Fact>, tail: Fact)
    requires HiddenEdits(sees, f, edits, g)
    ensures HiddenEdits(sees, f + [tail], edits, g + [tail])
    decreases |edits|
  {
    if edits != [] {
      var e := edits[0];
      assert Apply(f + [tail], e) == Apply(f, e) + [tail];
      EditsBeforeTail(sees, Apply(f, e), edits[1..], g, tail);
    }
  }

  lemma {:induction false} EditsThenInsert(sees: Fact -> bool, f: seq<Fact>, edits: seq<Edit>, g: seq<Fact>, x: Fact)
    requires HiddenEdits(sees, f, edits, g) && !sees(x)
    ensures HiddenEdits(sees, f, edits + [Insert(|g|, x)], g + [x])
    decreases |edits|
  {
    var all := edits + [Insert(|g|, x)];
    if edits == [] {
      assert Apply(g, all[0]) == g + [x] && all[1..] == [];
    } else {
      EditsThenInsert(sees, Apply(f, edits[0]), edits[1..], g, x);
      assert all[0] == edits[0] && all[1..] == edits[1..] + [Insert(|g|, x)];
    }
  }

  lemma RemoveThenEdits(sees: Fact -> bool, f: seq<Fact>, edits: seq<Edit>, g: seq<Fact>)
    requires f != [] && !sees(f[|f| - 1]) && HiddenEdits(sees, f[..|f| - 1], edits, g)
    ensures HiddenEdits(sees, f, [Remove(|f| - 1)] + edits, g)
  {
    var all := [Remove(|f| - 1)] + edits;
    assert all[0] == Remove(|f| - 1) && all[1..] == edits;
    assert Apply(f, all[0]) == f[..|f| - 1];
  }

  /** Two lists with the same view, both ending in something seen, end in the same. */
  lemma SameViewSameEnd<T>(s: seq<T>, t: seq<T>, p: T -> bool)
    requires s != [] && t != [] && p(s[|s| - 1]) && p(t[|t| - 1]) && Kept(s, p) == Kept(t, p)
    ensures s[|s| - 1] == t[|t| - 1] && Kept(s[..|s| - 1], p) == Kept(t[..|t| - 1], p)
  {
    var v, w := Kept(s, p), Kept(t, p);
    assert v[|v| - 1] == s[|s| - 1] && w[|w| - 1] == t[|t| - 1];
    assert v[..|v| - 1] == Kept(s[..|s| - 1], p) && w[..|w| - 1] == Kept(t[..|t| - 1], p);
  }

  /** Conversely, any two fact lists that look the same are a few hidden edits apart. */
  lemma {:induction false} SameViewIsReached(sees: Fact -> bool, f: seq<Fact>, g: seq<Fact>) returns (edits: seq<Edit>)
    requires Kept(f, sees) == Kept(g, sees)
    ensures HiddenEdits(sees, f, edits, g)
    decreases |f| + |g|
  {
    if f != [] && !sees(f[|f| - 1]) {
      var front := f[..|f| - 1];
      var rest := SameViewIsReached(sees, front, g);
      RemoveThenEdits(sees, f, rest, g);
      edits := [Remove(|f| - 1)] + rest;
    } else if g != [] && !sees(g[|g| - 1]) {
      var front := g[..|g| - 1];
      assert g == front + [g[|g| - 1]];
      var rest := SameViewIsReached(sees, f, front);
      EditsThenInsert(sees, f, rest, front, g[|g| - 1]);
      edits := rest + [Insert(|front|, g[|g| - 1])];
    } else if f == [] || g == [] {
      edits := [];
    } else {
      var a, b, x := f[..|f| - 1], g[..|g| - 1], f[|f| - 1];
      assert f == a + [x] && g == b + [g[|g| - 1]];
      SameViewSameEnd(f, g, sees);
      edits := SameViewIsReached(sees, a, b);
      EditsBeforeTail(sees, a, edits, b, x);
    }
  }

  ghost predicate Reachable(sees: Fact -> bool, f: seq<Fact>, g: seq<Fact>) {
    exists edits :: HiddenEdits(sees, f, edits, g)
  }

  lemma ReachableKeepsView(sees: Fact -> bool, f: seq<Fact>, g: seq<Fact>)
    requires Reachable(sees, f, g)
    ensures Kept(f, sees) == Kept(g, sees)
  {
    var edits :| HiddenEdits(sees, f, edits, g);
    HiddenEditsKeepView(sees, f, edits, g);
  }

  /** Hidden edits are exactly what keeps the seen facts. */
  lemma HiddenEditsIff(sees: Fact -> bool, f: seq<Fact>, g: seq<Fact>)
    ensures Reachable(sees, f, g) <==> Kept(f, sees) == Kept(g, sees)
  {
    if Reachable(sees, f, g) {
      ReachableKeepsView(sees, f, g);
    }
    if Kept(f, sees) == Kept(g, sees) {
      var edits := SameViewIsReached(sees, f, g);
    }
  }

  // ---------------------------------------------------------------------------------------
  // What shows
  // ---------------------------------------------------------------------------------------

  /** Positions in increasing order at which the kept elements stand. */
  predicate PicksOut<T(==)>(s: seq<T>, positions: seq<nat>, kept: seq<T>) {
    && |positions| == |kept|
    && (forall i, j | 0 <= i < j < |positions| :: positions[i] < positions[j])
    && (forall i | 0 <= i < |positions| :: positions[i] < |s| && s[positions[i]] == kept[i])
  }

  lemma PicksOutSnoc<T>(front: seq<T>, x: T, positions: seq<nat>, kept: seq<T>)
    requires PicksOut(front, positions, kept)
    ensures PicksOut(front + [x], positions, kept)
    ensures PicksOut(front + [x], positions + [|front|], kept + [x])
  {
  }

  ghost predicate Covers<T>(s: seq<T>, positions: seq<nat>, p: T -> bool) {
    forall i | 0 <= i < |s| && p(s[i]) :: i in positions
  }

  lemma CoversSnoc<T>(front: seq<T>, x: T, positions: seq<nat>, p: T -> bool)
    requires Covers(front, positions, p)
    ensures Covers(front + [x], if p(x) then positions + [|front|] else positions, p)
  {
    var s := front + [x];
    forall i | 0 <= i < |s| && p(s[i]) ensures i in if p(x) then positions + [|front|] else positions {
      assert i < |front| ==> front[i] == s[i];
    }
  }

  /** What is kept stands at increasing positions, and everything seen is at one of them. */
  lemma {:induction false} KeptAreTheSeenOnes<T>(s: seq<T>, p: T -> bool) returns (positions: seq<nat>)
    ensures PicksOut(s, positions, Kept(s, p)) && Covers(s, positions, p)
  {
    if s == [] {
      positions := [];
    } else {
      var front, last := s[..|s| - 1], s[|s| - 1];
      assert s == front + [last];
      var before := KeptAreTheSeenOnes(front, p);
      PicksOutSnoc(front, last, before, Kept(front, p));
      CoversSnoc(front, last, before, p);
      KeptSnoc(front, last, p);
      positions := if p(last) then before + [|front|] else before;
    }
  }

  lemma {:induction false} KeptIff<T>(s: seq<T>, p: T -> bool, x: T)
    ensures x in Kept(s, p) <==> x in s && p(x)
  {
    if s != [] {
      var front, last := s[..|s| - 1], s[|s| - 1];
      assert s == front + [last];
      KeptIff(front, p, x);
    }
  }

  lemma {:induction false} NothingKept<T>(s: seq<T>, p: T -> bool)
    requires forall x <- s :: !p(x)
    ensures Kept(s, p) == []
  {
    if s != [] {
      NothingKept(s[..|s| - 1], p);
    }
  }

  /** Each citation is the id of the fact rendered beside it; at most three, the first visible ones. */
  lemma CitationsMatchFacts(s: Snapshot, thread: ThreadState, r: Relationship)
    ensures var w, visible := WakeupFor(s, thread, r), VisibleFacts(r, s.facts);
      && |w.relevantFacts| == |w.citationFactIds| == (if |visible| < 3 then |visible| else 3)
      && (forall i | 0 <= i < |w.relevantFacts| ::
            w.relevantFacts[i] == Render(visible[i]) && w.citationFactIds[i] == visible[i].id
            && visible[i] in s.facts && Visible(r, visible[i]))
  {
    var visible := VisibleFacts(r, s.facts);
    forall i | 0 <= i < |visible| ensures visible[i] in s.facts && Visible(r, visible[i]) {
      assert visible[i] in visible;
      KeptIff(s.facts, Sees(r), visible[i]);
    }
  }

  lemma AllowedTextsAreAllowed(r: Relationship, texts: seq<string>, text: string)
    ensures text in AllowedTexts(r, texts) <==> text in texts && AllowsText(r, text)
  {
    KeptIff(texts, x => AllowsText(r, x), text);
  }

  /** Every text of the wake-up that passed the topic filter. */
  predicate Shows(s: Snapshot, thread: ThreadState, r: Relationship, text: string) {
    var w := WakeupFor(s, thread, r);
    || text in w.openCommitments || text in w.recentTopics || text in w.recentKeywords
    || w.activeState == Some(text)
    || exists f <- Take(VisibleFacts(r, s.facts), 3) :: f.value == text
  }

  /**
   No commitment, topic, keyword, active state or fact value shown to anyone but the owner mentions
   a forbidden topic, and a trusted contact with a list of shared topics sees only such texts that
   mention one.
   */
  lemma ForbiddenTopicsDoNotShow(s: Snapshot, thread: ThreadState, r: Relationship, text: string)
    requires r.trust != Owner && Shows(s, thread, r, text)
    ensures !Mentions(text, r.boundary.forbiddenTopics)
    ensures r.trust == Trusted && (r.boundary.sharedTopics == [] || Mentions(text, r.boundary.sharedTopics))
  {
    AllowedTextsAreAllowed(r, thread.pendingCommitments, text);
    AllowedTextsAreAllowed(r, s.recentTopics, text);
    AllowedTextsAreAllowed(r, s.recentKeywords, text);
    var shown := Take(VisibleFacts(r, s.facts), 3);
    CitationsMatchFacts(s, thread, r);
    assert forall i | 0 <= i < |shown| :: Visible(r, shown[i]);
    assert AllowsText(r, text);
  }

  const NOTHING := Wakeup(None, None, [], [], [], [], [], [])

  lemma NothingIsAllowed(r: Relationship, texts: seq<string>)
    requires r.trust == Acquaintance || r.trust == Stranger
    ensures AllowedTexts(r, texts) == []
  {
    NothingKept(texts, text => AllowsText(r, text));
  }

  lemma NothingIsVisible(r: Relationship, facts: seq<Fact>)
    requires r.trust == Acquaintance || r.trust == Stranger
    ensures VisibleFacts(r, facts) == []
  {
    NothingKept(facts, Sees(r));
  }

  /** Acquaintances and strangers get nothing but citations, and an identity shared outright. */
  lemma StrangersGetOnlyCitations(s: Snapshot, thread: ThreadState, r: Relationship)
    requires r.trust == Acquaintance || r.trust == Stranger
    ensures WakeupFor(s, thread, r)
         == NOTHING.(identitySummary := ShownIdentity(s, r), citations := Take(Cited(s.facts), 3))
    ensures ShownIdentity(s, r) != None ==> r.disclosure.Some? && r.disclosure.value.shareIdentity
  {
    NothingIsVisible(r, s.facts);
    NothingIsAllowed(r, thread.pendingCommitments);
    NothingIsAllowed(r, s.recentTopics);
    NothingIsAllowed(r, s.recentKeywords);
  }

  /** Nobody the memory has a record of. */
  predicate Unrecorded(s: Snapshot, participant: Option<string>) {
    participant.Some? ==> participant.value != "owner" && FindEntry(s.relationships, participant.value).None?
  }

  /**
   Someone with no record can tell two memories apart by the first three citations and by
   nothing else, whatever the stranger boundary says.
   */
  lemma UnknownParticipantsSeeOnlyCitations(s: Snapshot, other: Snapshot, thread: ThreadState,
      participant: Option<string>)
    requires Unrecorded(s, participant) && Unrecorded(other, participant)
    ensures Assemble(s, thread, participant, None) == NOTHING.(citations := Take(Cited(s.facts), 3))
    ensures Assemble(s, thread, participant, None) == Assemble(other, thread, participant, None)
       <==> Take(Cited(s.facts), 3) == Take(Cited(other.facts), 3)
  {
    StrangersGetOnlyCitations(s, thread, Resolve(s, participant, None));
    StrangersGetOnlyCitations(other, thread, Resolve(other, participant, None));
  }

  /** A stranger is handed the citation of a fact that is hidden from strangers. */
  lemma StrangersSeeCitations()
    ensures var c := Citation("thread", Some("turn"), None, "raise agreed");
      var s := Snapshot(None, None, [Fact("1", "salary", "high", false, [c])], [], [], [],
          InfoBoundary([], [], false, false));
      && !Visible(Resolve(s, None, None), s.facts[0])
      && Assemble(s, ThreadState(None, []), None, None).citations == [c]
  {
    var c := Citation("thread", Some("turn"), None, "raise agreed");
    var f := Fact("1", "salary", "high", false, [c]);
    var s := Snapshot(None, None, [f], [], [], [], InfoBoundary([], [], false, false));
    assert [f][..0] == [];
    assert Cited([f]) == [] + [c];
    UnknownParticipantsSeeOnlyCitations(s, s, ThreadState(None, []), None);
  }

  // ---------------------------------------------------------------------------------------
  // The subject of a fact is not filtered
  // ---------------------------------------------------------------------------------------

  lemma ValueBehindSubject(f: Fact)
    ensures |AsciiLower(Render(f))| >= |f.subject| + 2
    ensures AsciiLower(Render(f))[|f.subject| + 2..] == AsciiLower(f.value)
  {
  }

  /**
   A forbidden topic shows up in a rendered fact exactly if an occurrence of it starts in the
   subject or the separator behind it.
   */
  lemma ForbiddenTopicShowsIff(r: Relationship, f: Fact, topic: string)
    requires r.trust != Owner && Visible(r, f) && topic in r.boundary.forbiddenTopics && !IsBlank(topic)
    ensures Contains(AsciiLower(Render(f)), AsciiLower(topic)) <==>
      exists p: nat | p < |f.subject| + 2 :: OccursAt(AsciiLower(Render(f)), AsciiLower(topic), p)
  {
    var text, needle, k := AsciiLower(Render(f)), AsciiLower(topic), |f.subject| + 2;
    ValueBehindSubject(f);
    assert !Contains(AsciiLower(f.value), needle);
    ContainsIff(text, needle);
    ContainsIff(AsciiLower(f.value), needle);
    forall p: nat | OccursAt(text, needle, p) ensures p < k {
      if p >= k {
        OccursBehind(text, needle, k, p);
      }
    }
  }

  /** A trusted contact may so be shown a fact about a forbidden topic. */
  lemma SubjectIsNotFiltered()
    ensures var record := RelationshipEntry("ann", Trusted, InfoBoundary([], ["salary"], false, false));
      var f := Fact("1", "salary", "high", false, []);
      var s := Snapshot(None, None, [f], [], [], [record], InfoBoundary([], [], false, false));
      Assemble(s, ThreadState(None, []), Some("ann"), None).relevantFacts == ["salary: high"]
  {
    var record := RelationshipEntry("ann", Trusted, InfoBoundary([], ["salary"], false, false));
    var f := Fact("1", "salary", "high", false, []);
    var s := Snapshot(None, None, [f], [], [], [record], InfoBoundary([], [], false, false));
    var r := Resolve(s, Some("ann"), None);
    assert r == Relationship(Trusted, record.boundary, None);
    var text, topic := AsciiLower(f.value), AsciiLower("salary");
    assert |text| == 4 && |topic| == 6;
    TooLong(text, topic);
    assert Visible(r, f);
    assert [f][..0] == [] && Kept([f], Sees(r)) == [f];
    assert Render(f) == "salary: high";
  }

  lemma {:induction false} TooLong(text: string, needle: string)
    requires |text| < |needle|
    ensures !Contains(text, needle)
  {
    if text != "" {
      TooLong(text[1..], needle);
    }
  }
}
