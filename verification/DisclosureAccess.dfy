/**
 Who is shown what: the whole wake-up as `Assemble` gives it to each kind of caller, told by a
 reference that walks the memory once (crates/liz-app-server/src/runtime/context_assembler.rs).
 */
module DisclosureAccess {
  import opened Common
  import opened Disclosure

  // ---------------------------------------------------------------------------------------
  // The reference
  // ---------------------------------------------------------------------------------------

  /** The text agrees somewhere, up to ASCII case, with a topic that has a visible character. */
  ghost predicate Discusses(text: string, topics: seq<string>) {
    exists topic <- topics :: AgreesSomewhere(text, topic, true) && exists c <- topic :: !IsSpace(c)
  }

  /** Which texts a caller may be shown. */
  datatype Access = AllTexts | NoTexts | Topics(allowed: seq<string>, forbidden: seq<string>)

  ghost predicate Admits(a: Access, text: string) {
    match a
    case AllTexts => true
    case NoTexts => false
    case Topics(allowed, forbidden) =>
      !Discusses(text, forbidden) && (allowed == [] || Discusses(text, allowed))
  }

  ghost function Admitted(a: Access, texts: seq<string>): seq<string> {
    if texts == [] then []
    else (if Admits(a, texts[0]) then [texts[0]] else []) + Admitted(a, texts[1..])
  }

  /** The first `n` facts that hold and whose value may be shown. */
  ghost function FirstFacts(a: Access, facts: seq<Fact>, n: nat): seq<Fact> {
    if n == 0 || facts == [] then []
    else if !facts[0].invalidated && Admits(a, facts[0].value) then [facts[0]] + FirstFacts(a, facts[1..], n - 1)
    else FirstFacts(a, facts[1..], n)
  }

  /** The first `n` citations of the facts that hold. */
  ghost function FirstCitations(facts: seq<Fact>, n: nat): seq<Citation> {
    if facts == [] then []
    else if facts[0].invalidated then FirstCitations(facts[1..], n)
    else
      var some := Take(facts[0].citations, n);
      some + FirstCitations(facts[1..], n - |some|)
  }

  ghost function State(s: Snapshot, thread: ThreadState): Option<string> {
    if s.activeState.Some? then s.activeState else thread.activeSummary
  }

  /** The wake-up for a caller who may see these texts and these kinds of memory. */
  ghost predicate Grants(
      w: Wakeup, s: Snapshot, thread: ThreadState, a: Access, identity: bool, state: bool, commitments: bool)
  {
    var facts := FirstFacts(a, s.facts, 3);
    && w.identitySummary == (if identity then s.identitySummary else None)
    && w.activeState == (if state && State(s, thread).Some? && Admits(a, State(s, thread).value)
                         then State(s, thread) else None)
    && |w.relevantFacts| == |facts| && |w.citationFactIds| == |facts|
    && (forall i | 0 <= i < |facts| :: w.relevantFacts[i] == facts[i].subject + ": " + facts[i].value)
    && (forall i | 0 <= i < |facts| :: w.citationFactIds[i] == facts[i].id)
    && w.openCommitments == (if commitments then Admitted(a, thread.pendingCommitments) else [])
    && w.recentTopics == (if state then Admitted(a, s.recentTopics) else [])
    && w.recentKeywords == (if state then Admitted(a, s.recentKeywords) else [])
    && w.citations == FirstCitations(s.facts, 3)
  }

  // ---------------------------------------------------------------------------------------
  // The wake-up is the reference
  // ---------------------------------------------------------------------------------------

  lemma BlankIff(topic: string)
    ensures !IsBlank(topic) <==> exists c <- topic :: !IsSpace(c)
  {
  }

  lemma MentionsIff(text: string, topics: seq<string>)
    ensures Mentions(text, topics) <==> Discusses(text, topics)
  {
    forall topic <- topics
      ensures !IsBlank(topic) && Contains(AsciiLower(text), AsciiLower(topic))
         <==> AgreesSomewhere(text, topic, true) && exists c <- topic :: !IsSpace(c)
    {
      BlankIff(topic);
      LowerContainsIffAgrees(text, topic);
    }
  }

  /** What a relationship lets through. */
  function AccessOf(r: Relationship): Access {
    if r.trust == Owner then AllTexts
    else if r.trust == Trusted then Topics(r.boundary.sharedTopics, r.boundary.forbiddenTopics)
    else NoTexts
  }

  lemma AllowsIffAdmits(r: Relationship, text: string)
    ensures AllowsText(r, text) <==> Admits(AccessOf(r), text)
  {
    MentionsIff(text, r.boundary.forbiddenTopics);
    MentionsIff(text, r.boundary.sharedTopics);
  }

  lemma KeptCons<T>(x: T, s: seq<T>, p: T -> bool)
    ensures Kept([x] + s, p) == if p(x) then [x] + Kept(s, p) else Kept(s, p)
  {
    KeptConcat([x], s, p);
    assert [x][..0] == [];
    assert [] + [x] == [x] && [] + Kept(s, p) == Kept(s, p);
  }

  lemma {:induction false} AllowedAreAdmitted(r: Relationship, texts: seq<string>)
    ensures AllowedTexts(r, texts) == Admitted(AccessOf(r), texts)
  {
    if texts != [] {
      AllowedAreAdmitted(r, texts[1..]);
      AllowsIffAdmits(r, texts[0]);
      assert texts == [texts[0]] + texts[1..];
      KeptCons(texts[0], texts[1..], text => AllowsText(r, text));
    }
  }

  lemma TakeCons<T>(x: T, s: seq<T>, n: nat)
    requires n > 0
    ensures Take([x] + s, n) == [x] + Take(s, n - 1)
  {
  }

  lemma {:induction false} VisibleAreFirst(r: Relationship, facts: seq<Fact>, n: nat)
    ensures Take(VisibleFacts(r, facts), n) == FirstFacts(AccessOf(r), facts, n)
    decreases |facts|
  {
    if facts != [] && n > 0 {
      var f := facts[0];
      assert facts == [f] + facts[1..];
      AllowsIffAdmits(r, f.value);
      KeptCons(f, facts[1..], Sees(r));
      if Visible(r, f) {
        TakeCons(f, VisibleFacts(r, facts[1..]), n);
        VisibleAreFirst(r, facts[1..], n - 1);
      } else {
        VisibleAreFirst(r, facts[1..], n);
      }
    }
  }

  lemma TakeConcat<T>(a: seq<T>, b: seq<T>, n: nat)
    ensures Take(a + b, n) == Take(a, n) + Take(b, n - |Take(a, n)|)
  {
  }

  lemma CitedCons(f: Fact, rest: seq<Fact>)
    ensures Cited([f] + rest) == if f.invalidated then Cited(rest) else f.citations + Cited(rest)
  {
    CitedConcat([f], rest);
    assert [f][..0] == [] && Cited([f]) == [] + CitedBy(f);
    assert [] + CitedBy(f) == CitedBy(f) && [] + Cited(rest) == Cited(rest);
  }

  lemma {:induction false} CitedAreFirst(facts: seq<Fact>, n: nat)
    ensures Take(Cited(facts), n) == FirstCitations(facts, n)
    decreases |facts|
  {
    if facts != [] {
      var f, rest := facts[0], facts[1..];
      assert facts == [f] + rest;
      CitedCons(f, rest);
      if f.invalidated {
        CitedAreFirst(rest, n);
      } else {
        TakeConcat(f.citations, Cited(rest), n);
        CitedAreFirst(rest, n - |Take(f.citations, n)|);
      }
    }
  }

  /** What a relationship grants. */
  lemma RelationshipGrants(s: Snapshot, thread: ThreadState, r: Relationship)
    ensures Grants(WakeupFor(s, thread, r), s, thread, AccessOf(r),
                   r.trust == Owner || (r.disclosure.Some? && r.disclosure.value.shareIdentity),
                   r.trust == Owner || r.boundary.shareActiveState, r.boundary.shareCommitments)
  {
    VisibleAreFirst(r, s.facts, 3);
    CitedAreFirst(s.facts, 3);
    AllowedAreAdmitted(r, thread.pendingCommitments);
    AllowedAreAdmitted(r, s.recentTopics);
    AllowedAreAdmitted(r, s.recentKeywords);
    if State(s, thread).Some? {
      AllowsIffAdmits(r, State(s, thread).value);
    }
  }

  // ---------------------------------------------------------------------------------------
  // Callers with an interaction context
  // ---------------------------------------------------------------------------------------

  /** The owner is shown everything, but commitments only if the policy shares them. */
  lemma OwnerActorIsShownEverything(s: Snapshot, thread: ThreadState, participant: Option<string>, d: DisclosurePolicy)
    ensures Grants(Assemble(s, thread, participant, Some(InteractionContext(OwnerActor, d))), s, thread,
                   AllTexts, true, true, d.shareCommitments)
  {
    RelationshipGrants(s, thread, Resolve(s, participant, Some(InteractionContext(OwnerActor, d))));
  }

  /** A human contact or an external agent is shown what the policy shares and its topics admit. */
  lemma ContactsAreShownTheirTopics(s: Snapshot, thread: ThreadState, participant: Option<string>, actor: ActorKind,
      d: DisclosurePolicy)
    requires actor == HumanContact || actor == ExternalAgent
    ensures Grants(Assemble(s, thread, participant, Some(InteractionContext(actor, d))), s, thread,
                   Topics(d.allowedTopics, d.forbiddenTopics), d.shareIdentity, d.shareActiveState, d.shareCommitments)
  {
    RelationshipGrants(s, thread, Resolve(s, participant, Some(InteractionContext(actor, d))));
  }

  lemma {:induction false} NothingAdmitted(texts: seq<string>, facts: seq<Fact>, n: nat)
    ensures Admitted(NoTexts, texts) == [] && FirstFacts(NoTexts, facts, n) == []
    decreases |texts| + |facts|
  {
    if texts != [] {
      NothingAdmitted(texts[1..], facts, n);
    } else if facts != [] {
      NothingAdmitted(texts, facts[1..], n);
    }
  }

  /** Where no text may be shown, a wake-up is the identity, if shared, and citations. */
  lemma NoTextsGrantNothing(w: Wakeup, s: Snapshot, thread: ThreadState, identity: bool, state: bool, commitments: bool)
    requires Grants(w, s, thread, NoTexts, identity, state, commitments)
    ensures w == Wakeup(if identity then s.identitySummary else None, None, [], [], [], [], [],
                        FirstCitations(s.facts, 3))
  {
    NothingAdmitted(thread.pendingCommitments, s.facts, 3);
    NothingAdmitted(s.recentTopics, s.facts, 3);
    NothingAdmitted(s.recentKeywords, s.facts, 3);
  }

  /** Nodes, services, strangers, webhooks and automations: an identity the policy shares, and citations. */
  lemma OthersAreShownNothing(s: Snapshot, thread: ThreadState, participant: Option<string>, actor: ActorKind,
      d: DisclosurePolicy)
    requires actor != OwnerActor && actor != HumanContact && actor != ExternalAgent
    ensures Assemble(s, thread, participant, Some(InteractionContext(actor, d)))
         == Wakeup(if d.shareIdentity then s.identitySummary else None, None, [], [], [], [], [],
                   FirstCitations(s.facts, 3))
  {
    var r := Resolve(s, participant, Some(InteractionContext(actor, d)));
    RelationshipGrants(s, thread, r);
    NoTextsGrantNothing(WakeupFor(s, thread, r), s, thread, d.shareIdentity, d.shareActiveState, d.shareCommitments);
  }

  // ---------------------------------------------------------------------------------------
  // Callers without one
  // ---------------------------------------------------------------------------------------

  /** The participant "owner" is shown everything. */
  lemma OwnerIsShownEverything(s: Snapshot, thread: ThreadState)
    ensures Grants(Assemble(s, thread, Some("owner"), None), s, thread, AllTexts, true, true, true)
  {
    RelationshipGrants(s, thread, Resolve(s, Some("owner"), None));
  }

  lemma {:induction false} FirstEntryIsFound(entries: seq<RelationshipEntry>, person: string, i: nat)
    requires i < |entries| && entries[i].personId == person
    requires forall j: nat | j < i :: entries[j].personId != person
    ensures FindEntry(entries, person) == Some(entries[i])
    decreases i
  {
    if i > 0 {
      assert forall j: nat | j < i - 1 :: entries[1..][j] == entries[j + 1];
      FirstEntryIsFound(entries[1..], person, i - 1);
    }
  }

  lemma {:induction false} NoEntryIsFound(entries: seq<RelationshipEntry>, person: string)
    requires forall e <- entries :: e.personId != person
    ensures FindEntry(entries, person) == None
  {
    if entries != [] {
      NoEntryIsFound(entries[1..], person);
    }
  }

  /** A participant on record is shown what the first record of that person says. */
  lemma RecordDecides(s: Snapshot, thread: ThreadState, i: nat)
    requires i < |s.relationships| && s.relationships[i].personId != "owner"
    requires forall j: nat | j < i :: s.relationships[j].personId != s.relationships[i].personId
    ensures var e := s.relationships[i];
      var w := Assemble(s, thread, Some(e.personId), None);
      match e.trust
      case Owner => Grants(w, s, thread, AllTexts, true, true, e.boundary.shareCommitments)
      case Trusted =>
        Grants(w, s, thread, Topics(e.boundary.sharedTopics, e.boundary.forbiddenTopics), false,
               e.boundary.shareActiveState, e.boundary.shareCommitments)
      case _ => w == Wakeup(None, None, [], [], [], [], [], FirstCitations(s.facts, 3))
  {
    var e := s.relationships[i];
    FirstEntryIsFound(s.relationships, e.personId, i);
    var r := Resolve(s, Some(e.personId), None);
    RelationshipGrants(s, thread, r);
    if e.trust != Owner && e.trust != Trusted {
      NoTextsGrantNothing(WakeupFor(s, thread, r), s, thread, false, e.boundary.shareActiveState,
                          e.boundary.shareCommitments);
    }
  }

  /** Anyone else is shown citations only. */
  lemma UnrecordedAreShownNothing(s: Snapshot, thread: ThreadState, participant: Option<string>)
    requires participant.Some? ==>
      participant.value != "owner" && forall e <- s.relationships :: e.personId != participant.value
    ensures Assemble(s, thread, participant, None)
         == Wakeup(None, None, [], [], [], [], [], FirstCitations(s.facts, 3))
  {
    if participant.Some? {
      NoEntryIsFound(s.relationships, participant.value);
    }
    var r := Resolve(s, participant, None);
    RelationshipGrants(s, thread, r);
    NoTextsGrantNothing(WakeupFor(s, thread, r), s, thread, false, r.boundary.shareActiveState,
                        r.boundary.shareCommitments);
  }
}
