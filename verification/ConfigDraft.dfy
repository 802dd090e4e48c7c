/**
 The config panel's draft (crates/liz-cli/src/view_model.rs, `ConfigDraft`): three visible
 fields for the provider in focus, and a cache of the same fields per provider.
 */
module ConfigDrafts {
  import opened Common

  type ProviderId = string

  datatype Fields = Fields(baseUrl: string, apiKey: string, modelId: string)

  const NO_OVERRIDES := Fields("", "", "")

  datatype Focus = Provider | BaseUrl | ApiKey | Model

  datatype Draft = Draft(
    providerId: ProviderId,
    known: seq<ProviderId>,
    fields: Fields,
    dirty: bool,
    focus: Focus,
    overrides: map<ProviderId, Fields>)

  const DEFAULT := Draft("openai", ["openai"], NO_OVERRIDES, false, Provider, map[])

  /** The cached draft of a provider; a missing one counts as empty. */
  function DraftOf(d: Draft, p: ProviderId): Fields {
    if p in d.overrides then d.overrides[p] else NO_OVERRIDES
  }

  /** One file entry per provider, in key order; absent values are empty. */
  datatype Config = Config(primary: Option<ProviderId>, providers: seq<(ProviderId, Fields)>)

  // ---------------------------------------------------------------------------------------
  // The operations, on values
  // ---------------------------------------------------------------------------------------

  function SyncedKnown(d: Draft): Draft {
    if d.providerId == "" || d.providerId in d.known then d else d.(known := [d.providerId] + d.known)
  }

  function Persisted(d: Draft): Draft {
    if d.providerId == "" then d else d.(overrides := d.overrides[d.providerId := d.fields])
  }

  function Restored(d: Draft): Draft {
    d.(fields := DraftOf(d, d.providerId))
  }

  function FocusedText(d: Draft): string {
    match d.focus
    case Provider => d.providerId
    case BaseUrl => d.fields.baseUrl
    case ApiKey => d.fields.apiKey
    case Model => d.fields.modelId
  }

  function WithFocusedText(d: Draft, text: string): Draft {
    match d.focus
    case Provider => d.(providerId := text)
    case BaseUrl => d.(fields := d.fields.(baseUrl := text))
    case ApiKey => d.(fields := d.fields.(apiKey := text))
    case Model => d.(fields := d.fields.(modelId := text))
  }

  function Edited(d: Draft, text: string): Draft {
    Persisted(SyncedKnown(WithFocusedText(d, text).(dirty := true)))
  }

  function AfterPush(d: Draft, c: char): Draft {
    Edited(d, FocusedText(d) + [c])
  }

  function AfterPop(d: Draft): Draft {
    var text := FocusedText(d);
    if text == "" then d else Edited(d, text[..|text| - 1])
  }

  /** The first index of `p`, or zero. */
  function IndexIn(known: seq<ProviderId>, p: ProviderId): (i: nat)
    ensures known != [] ==> i < |known|
    ensures p in known ==> known[i] == p
  {
    if p !in known then 0
    else if known[0] == p then 0
    else 1 + IndexIn(known[1..], p)
  }

  function NextIndex(i: nat, n: nat, direction: int): nat
    requires i < n
  {
    if direction < 0 then (if i == 0 then n - 1 else i - 1)
    else if i + 1 == n then 0
    else i + 1
  }

  function AfterCycle(d: Draft, direction: int): Draft {
    var known := if d.known == [] then [d.providerId] else d.known;
    var next := NextIndex(IndexIn(known, d.providerId), |known|, direction);
    Restored(Persisted(d.(known := known)).(providerId := known[next])).(dirty := true)
  }

  function WithProvider(known: seq<ProviderId>, p: ProviderId): seq<ProviderId> {
    if p == "" || p in known then known else known + [p]
  }

  function WithProviders(known: seq<ProviderId>, more: seq<ProviderId>): seq<ProviderId> {
    if more == [] then known else WithProvider(WithProviders(known, more[..|more| - 1]), more[|more| - 1])
  }

  const BUILTIN_PROVIDERS := ["openai", "anthropic", "openai-codex", "github-copilot", "gitlab", "minimax"]

  function Keys(providers: seq<(ProviderId, Fields)>): seq<ProviderId> {
    seq(|providers|, i requires 0 <= i < |providers| => providers[i].0)
  }

  function KnownProviders(current: ProviderId, config: Config, profiles: seq<ProviderId>,
      fallback: Option<ProviderId>): seq<ProviderId> {
    var first := [current] + (if fallback.Some? then [fallback.value] else []) + BUILTIN_PROVIDERS;
    WithProviders(WithProviders(WithProviders([], first), Keys(config.providers)), profiles)
  }

  function OverridesOf(providers: seq<(ProviderId, Fields)>): map<ProviderId, Fields> {
    if providers == [] then map[]
    else OverridesOf(providers[..|providers| - 1])[providers[|providers| - 1].0 := providers[|providers| - 1].1]
  }

  function AfterLoad(d: Draft, config: Config, profiles: seq<ProviderId>, fallback: Option<ProviderId>): Draft {
    var provider := if config.primary.Some? then config.primary.value else fallback.Or("openai");
    Restored(d.(overrides := OverridesOf(config.providers), providerId := provider,
                known := KnownProviders(provider, config, profiles, fallback), focus := Provider, dirty := false))
  }

  function NextFocus(f: Focus): Focus {
    match f
    case Provider => BaseUrl
    case BaseUrl => ApiKey
    case ApiKey => Model
    case Model => Provider
  }

  function PreviousFocus(f: Focus): Focus {
    match f
    case Provider => Model
    case BaseUrl => Provider
    case ApiKey => BaseUrl
    case Model => ApiKey
  }

  // ---------------------------------------------------------------------------------------
  // The class
  // ---------------------------------------------------------------------------------------

  class ConfigDraft {
    var providerId: ProviderId
    var known: seq<ProviderId>
    var fields: Fields
    var dirty: bool
    var focus: Focus
    var overrides: map<ProviderId, Fields>

    function View(): Draft
      reads this
    {
      Draft(providerId, known, fields, dirty, focus, overrides)
    }

    constructor ()
      ensures View() == DEFAULT
    {
      providerId, known, fields := "openai", ["openai"], NO_OVERRIDES;
      dirty, focus, overrides := false, Provider, map[];
    }

    method SyncKnownProviders()
      modifies this`known
      ensures View() == SyncedKnown(old(View()))
    {
      if providerId == "" {
        return;
      }
      if providerId !in known {
        known := [providerId] + known;
      }
    }

    method PersistVisibleFields()
      modifies this`overrides
      ensures View() == Persisted(old(View()))
    {
      if providerId == "" {
        return;
      }
      overrides := overrides[providerId := fields];
    }

    method RestoreVisibleFields()
      modifies this`fields
      ensures View() == Restored(old(View()))
    {
      fields := if providerId in overrides then overrides[providerId] else NO_OVERRIDES;
    }

    method SetFocusedText(text: string)
      modifies this`providerId, this`fields
      ensures View() == WithFocusedText(old(View()), text)
    {
      match focus {
        case Provider => providerId := text;
        case BaseUrl => fields := fields.(baseUrl := text);
        case ApiKey => fields := fields.(apiKey := text);
        case Model => fields := fields.(modelId := text);
      }
    }

    method PushChar(c: char)
      modifies this
      ensures View() == AfterPush(old(View()), c)
    {
      SetFocusedText(FocusedText(View()) + [c]);
      dirty := true;
      SyncKnownProviders();
      PersistVisibleFields();
    }

    method PopChar()
      modifies this
      ensures View() == AfterPop(old(View()))
    {
      var text := FocusedText(View());
      if text != "" {
        SetFocusedText(text[..|text| - 1]);
        dirty := true;
        SyncKnownProviders();
        PersistVisibleFields();
      }
    }

    method CycleProvider(direction: int)
      modifies this
      ensures View() == AfterCycle(old(View()), direction)
    {
      if known == [] {
        known := [providerId];
      }
      var next := NextIndex(IndexIn(known, providerId), |known|, direction);
      PersistVisibleFields();
      providerId := known[next];
      RestoreVisibleFields();
      dirty := true;
    }

    method PushUniqueProviders(more: seq<ProviderId>)
      modifies this`known
      ensures known == WithProviders(old(known), more)
    {
      var i := 0;
      while i < |more|
        invariant i <= |more| && known == WithProviders(old(known), more[..i])
      {
        assert more[..i + 1][..i] == more[..i];
        if more[i] != "" && more[i] !in known {
          known := known + [more[i]];
        }
        i := i + 1;
      }
      assert more[..i] == more;
    }

    method LoadOverrides(providers: seq<(ProviderId, Fields)>)
      modifies this`overrides
      ensures overrides == OverridesOf(providers)
    {
      overrides := map[];
      var i := 0;
      while i < |providers|
        invariant i <= |providers| && overrides == OverridesOf(providers[..i])
      {
        assert providers[..i + 1][..i] == providers[..i];
        overrides := overrides[providers[i].0 := providers[i].1];
        i := i + 1;
      }
      assert providers[..i] == providers;
    }

    method LoadFrom(config: Config, profiles: seq<ProviderId>, fallback: Option<ProviderId>)
      modifies this
      ensures View() == AfterLoad(old(View()), config, profiles, fallback)
    {
      LoadOverrides(config.providers);
      providerId := if config.primary.Some? then config.primary.value else fallback.Or("openai");
      known := [];
      PushUniqueProviders([providerId] + (if fallback.Some? then [fallback.value] else []) + BUILTIN_PROVIDERS);
      PushUniqueProviders(Keys(config.providers));
      PushUniqueProviders(profiles);
      focus := Provider;
      dirty := false;
      RestoreVisibleFields();
    }
  }

  // ---------------------------------------------------------------------------------------
  // Runs
  // ---------------------------------------------------------------------------------------

  datatype Action =
    | PushChar(c: char)
    | PopChar
    | Cycle(direction: int)
    | Load(config: Config, profiles: seq<ProviderId>, fallback: Option<ProviderId>)
    | FocusNext
    | FocusPrevious

  function Step(d: Draft, a: Action): Draft {
    match a
    case PushChar(c) => AfterPush(d, c)
    case PopChar => AfterPop(d)
    case Cycle(direction) => AfterCycle(d, direction)
    case Load(config, profiles, fallback) => AfterLoad(d, config, profiles, fallback)
    case FocusNext => d.(focus := NextFocus(d.focus))
    case FocusPrevious => d.(focus := PreviousFocus(d.focus))
  }

  function Run(actions: seq<Action>): Draft {
    if actions == [] then DEFAULT else Step(Run(actions[..|actions| - 1]), actions[|actions| - 1])
  }

  ghost predicate WellListed(known: seq<ProviderId>) {
    NoRepeats(known) && "" !in known
  }

  ghost predicate Inv(d: Draft) {
    && d.known != [] && WellListed(d.known)
    && (d.providerId != "" ==> d.providerId in d.known && d.fields == DraftOf(d, d.providerId))
  }

  lemma SyncKeepsWellListed(d: Draft)
    requires d.known != [] && WellListed(d.known)
    ensures var e := SyncedKnown(d);
      e.known != [] && WellListed(e.known) && (d.providerId != "" ==> d.providerId in e.known)
  {
  }

  lemma EditKeepsInv(d: Draft, text: string)
    requires Inv(d)
    ensures Inv(Edited(d, text))
  {
    var typed := WithFocusedText(d, text).(dirty := true);
    assert typed.known == d.known;
    SyncKeepsWellListed(typed);
  }

  lemma CycleKeepsInv(d: Draft, direction: int)
    requires Inv(d)
    ensures Inv(AfterCycle(d, direction))
  {
    var next := NextIndex(IndexIn(d.known, d.providerId), |d.known|, direction);
    assert d.known[next] in d.known;
  }

  lemma {:induction false} WithProvidersIsWellListed(known: seq<ProviderId>, more: seq<ProviderId>)
    requires WellListed(known)
    ensures WellListed(WithProviders(known, more))
    ensures forall p :: p in known || (p in more && p != "") ==> p in WithProviders(known, more)
  {
    if more != [] {
      assert more == more[..|more| - 1] + [more[|more| - 1]];
      WithProvidersIsWellListed(known, more[..|more| - 1]);
    }
  }

  lemma LoadKeepsInv(d: Draft, config: Config, profiles: seq<ProviderId>, fallback: Option<ProviderId>)
    ensures Inv(AfterLoad(d, config, profiles, fallback))
  {
    var provider := AfterLoad(d, config, profiles, fallback).providerId;
    var first := [provider] + (if fallback.Some? then [fallback.value] else []) + BUILTIN_PROVIDERS;
    assert first[0] == provider && first[|first| - 6] == "openai";
    WithProvidersIsWellListed([], first);
    WithProvidersIsWellListed(WithProviders([], first), Keys(config.providers));
    WithProvidersIsWellListed(WithProviders(WithProviders([], first), Keys(config.providers)), profiles);
    assert "openai" in KnownProviders(provider, config, profiles, fallback);
  }

  lemma StepKeepsInv(d: Draft, a: Action)
    requires Inv(d)
    ensures Inv(Step(d, a))
  {
    match a {
      case PushChar(c) => EditKeepsInv(d, FocusedText(d) + [c]);
      case PopChar =>
        var text := FocusedText(d);
        if text != "" {
          EditKeepsInv(d, text[..|text| - 1]);
        }
      case Cycle(direction) => CycleKeepsInv(d, direction);
      case Load(config, profiles, fallback) => LoadKeepsInv(d, config, profiles, fallback);
      case FocusNext =>
      case FocusPrevious =>
    }
  }

  lemma {:induction false} RunKeepsInv(actions: seq<Action>)
    ensures Inv(Run(actions))
  {
    if actions != [] {
      RunKeepsInv(actions[..|actions| - 1]);
      StepKeepsInv(Run(actions[..|actions| - 1]), actions[|actions| - 1]);
    }
  }

  /**
   Over every run: while a provider is named, it is known and the visible fields are its cached
   draft; the known providers hold no repeats and no empty name.
   */
  lemma VisibleFieldsAreTheCachedDraft(actions: seq<Action>)
    ensures var d := Run(actions);
      && d.known != [] && WellListed(d.known)
      && (d.providerId != "" ==> d.providerId in d.known && d.fields == DraftOf(d, d.providerId))
  {
    RunKeepsInv(actions);
  }

  // ---------------------------------------------------------------------------------------
  // What edits and cycling keep
  // ---------------------------------------------------------------------------------------

  /** The provider named once the focused field holds `text`. */
  function NamedAfter(d: Draft, text: string): ProviderId {
    if d.focus == Provider then text else d.providerId
  }

  /** The visible fields once the focused field holds `text`. */
  function FieldsAfter(d: Draft, text: string): Fields {
    WithFocusedText(d, text).fields
  }

  /**
   Exactly which drafts an edit keeps: all but the one of the provider it leaves named, and that
   one too if it already held the visible fields.
   */
  lemma EditKeepsDraftIff(d: Draft, text: string, p: ProviderId)
    ensures DraftOf(Edited(d, text), p) == DraftOf(d, p)
       <==> p == "" || p != NamedAfter(d, text) || DraftOf(d, p) == FieldsAfter(d, text)
  {
    var typed := SyncedKnown(WithFocusedText(d, text).(dirty := true));
    assert typed.overrides == d.overrides && typed.providerId == NamedAfter(d, text);
    assert typed.fields == FieldsAfter(d, text);
  }

  /**
   Typing in the provider field loses the draft of a provider exactly when the typed name is that
   provider's and its draft differs from the visible fields.
   */
  lemma TypingANameKeepsDraftIff(d: Draft, c: char, p: ProviderId)
    requires d.focus == Provider
    ensures DraftOf(Step(d, PushChar(c)), p) == DraftOf(d, p) <==> p != d.providerId + [c] || DraftOf(d, p) == d.fields
  {
    EditKeepsDraftIff(d, d.providerId + [c], p);
  }

  /** The same for deleting; the last character may go, and then no draft is touched. */
  lemma ErasingANameKeepsDraftIff(d: Draft, p: ProviderId)
    requires d.focus == Provider && d.providerId != ""
    ensures DraftOf(Step(d, PopChar), p) == DraftOf(d, p)
       <==> p == "" || p != d.providerId[..|d.providerId| - 1] || DraftOf(d, p) == d.fields
  {
    EditKeepsDraftIff(d, d.providerId[..|d.providerId| - 1], p);
  }

  lemma RunSnoc(actions: seq<Action>, a: Action)
    ensures Run(actions + [a]) == Step(Run(actions), a)
  {
    assert (actions + [a])[..|actions|] == actions;
  }

  const MISTYPED := [FocusNext, PushChar('x')] + [FocusPrevious, PopChar]

  const SLIP := MISTYPED + [FocusNext, PopChar] + [FocusPrevious]

  lemma RunTwo(a: Action, b: Action)
    ensures Run([a, b]) == Step(Step(DEFAULT, a), b)
  {
    assert [a, b][..1] == [a] && [a][..0] == [];
    assert Run([a]) == Step(DEFAULT, a);
  }

  lemma RunTwoMore(actions: seq<Action>, a: Action, b: Action)
    ensures Run(actions + [a, b]) == Step(Step(Run(actions), a), b)
  {
    RunSnoc(actions, a);
    RunSnoc(actions + [a], b);
    assert actions + [a] + [b] == actions + [a, b];
  }

  lemma Mistyped()
    ensures var d := Run(MISTYPED);
      && d.providerId == "opena" && d.focus == Provider && d.fields == Fields("x", "", "")
      && DraftOf(d, "openai") == Fields("x", "", "")
  {
    RunTwo(FocusNext, PushChar('x'));
    RunTwoMore([FocusNext, PushChar('x')], FocusPrevious, PopChar);
    assert "" + ['x'] == "x" && "openai"[..5] == "opena";
  }

  lemma BeforeTheSlip()
    ensures var d := Run(SLIP);
      && d.providerId == "opena" && d.focus == Provider && d.fields == NO_OVERRIDES
      && DraftOf(d, "openai") == Fields("x", "", "")
  {
    Mistyped();
    RunTwoMore(MISTYPED, FocusNext, PopChar);
    RunSnoc(MISTYPED + [FocusNext, PopChar], FocusPrevious);
    assert "x"[..0] == "";
  }

  /** A run that edits a mistyped name and, back at the old one, has lost its base URL. */
  lemma TypingCanLoseADraft()
    ensures DraftOf(Run(SLIP), "openai") == Fields("x", "", "")
    ensures DraftOf(Run(SLIP + [PushChar('i')]), "openai") == NO_OVERRIDES
  {
    BeforeTheSlip();
    RunSnoc(SLIP, PushChar('i'));
    assert "opena" + ['i'] == "openai";
  }

  /** Cycling keeps every provider's draft, and the list. */
  lemma CycleKeepsDrafts(d: Draft, direction: int, p: ProviderId)
    requires Inv(d)
    ensures DraftOf(AfterCycle(d, direction), p) == DraftOf(d, p)
    ensures AfterCycle(d, direction).known == d.known && AfterCycle(d, direction).focus == d.focus
  {
  }

  lemma IndexOfMember(known: seq<ProviderId>, i: nat)
    requires WellListed(known) && i < |known|
    ensures IndexIn(known, known[i]) == i
  {
    assert known[IndexIn(known, known[i])] == known[i];
  }

  /** Same provider, visible fields, list and focus, and the same draft for every provider. */
  ghost predicate SameDraft(d: Draft, e: Draft) {
    && e.providerId == d.providerId && e.fields == d.fields && e.known == d.known && e.focus == d.focus
    && (forall p :: DraftOf(e, p) == DraftOf(d, p))
  }

  /** Where a cycle leads, and what it leaves alone. */
  lemma CycleMoves(d: Draft, direction: int)
    requires Inv(d) && d.providerId != ""
    ensures var e := AfterCycle(d, direction);
      && Inv(e) && e.providerId != "" && e.known == d.known && e.focus == d.focus
      && IndexIn(e.known, e.providerId) == NextIndex(IndexIn(d.known, d.providerId), |d.known|, direction)
      && (forall p :: DraftOf(e, p) == DraftOf(d, p))
  {
    var next := NextIndex(IndexIn(d.known, d.providerId), |d.known|, direction);
    CycleKeepsInv(d, direction);
    IndexOfMember(d.known, next);
    assert d.known[next] in d.known;
    forall p ensures DraftOf(AfterCycle(d, direction), p) == DraftOf(d, p) {
      CycleKeepsDrafts(d, direction, p);
    }
  }

  lemma CycleBackReturns(d: Draft, direction: int)
    requires Inv(d) && d.providerId != ""
    ensures SameDraft(d, AfterCycle(AfterCycle(d, direction), if direction < 0 then 1 else -1))
  {
    var i, n := IndexIn(d.known, d.providerId), |d.known|;
    var back := if direction < 0 then 1 else -1;
    var e := AfterCycle(d, direction);
    CycleMoves(d, direction);
    CycleMoves(e, back);
    assert NextIndex(NextIndex(i, n, direction), n, back) == i;
  }

  /** Cycling forth and back returns to the same draft exactly when a provider was named. */
  lemma CycleForthAndBackIff(actions: seq<Action>, direction: int)
    ensures var d := Run(actions);
      SameDraft(d, AfterCycle(AfterCycle(d, direction), if direction < 0 then 1 else -1)) <==> d.providerId != ""
  {
    var d := Run(actions);
    RunKeepsInv(actions);
    if d.providerId != "" {
      CycleBackReturns(d, direction);
    } else {
      var back := if direction < 0 then 1 else -1;
      CycleKeepsInv(d, direction);
      var f := AfterCycle(AfterCycle(d, direction), back);
      assert f.providerId in d.known;
    }
  }

  // ---------------------------------------------------------------------------------------
  // Cycling any number of times
  // ---------------------------------------------------------------------------------------

  function Iterate(f: Draft -> Draft, d: Draft, n: nat): Draft {
    if n == 0 then d else f(Iterate(f, d, n - 1))
  }

  function CycleTo(direction: int): Draft -> Draft {
    (d: Draft) => AfterCycle(d, direction)
  }

  function CycledTimes(d: Draft, direction: int, n: nat): Draft {
    Iterate(CycleTo(direction), d, n)
  }

  function Sign(direction: int): int {
    if direction < 0 then -1 else 1
  }

  /** The place `n` cycles away from place `i` of `size`. */
  function Turned(i: nat, size: nat, direction: int, n: nat): (place: nat)
    requires i < size
    ensures place < size
  {
    if n == 0 then i else NextIndex(Turned(i, size, direction, n - 1), size, direction)
  }

  lemma AtLeastOnce(n: int, m: nat)
    requires n >= 1
    ensures n * m >= m
  {
  }

  lemma Distribute(a: int, b: int, m: int)
    ensures (a - b) * m == a * m - b * m && (a + b) * m == a * m + b * m
  {
  }

  /** A remainder is determined by what it is a remainder of. */
  lemma RemainderIs(a: int, q: int, r: int, m: nat)
    requires 0 <= r < m && a == q * m + r
    ensures a % m == r && a / m == q
  {
    Distribute(q, a / m, m);
    if q > a / m {
      AtLeastOnce(q - a / m, m);
    } else if q < a / m {
      Distribute(a / m, q, m);
      AtLeastOnce(a / m - q, m);
    }
  }

  lemma SameRemainderIff(a: int, b: int, m: nat)
    requires m > 0
    ensures a % m == b % m <==> (a - b) % m == 0
  {
    Distribute(a / m, b / m, m);
    if a % m == b % m {
      RemainderIs(a - b, a / m - b / m, 0, m);
    }
    if (a - b) % m == 0 {
      Distribute((a - b) / m, b / m, m);
      RemainderIs(a, (a - b) / m + b / m, b % m, m);
    }
  }

  lemma ZeroRemainderOfNegative(n: int, m: nat)
    requires m > 0
    ensures n % m == 0 <==> -n % m == 0
  {
    SameRemainderIff(0, n, m);
    SameRemainderIff(0, -n, m);
    RemainderIs(0, 0, 0, m);
  }

  lemma RemainderOfStep(a: int, step: int, m: nat)
    requires m > 0
    ensures (a % m + step) % m == (a + step) % m
  {
    SameRemainderIff(a % m + step, a + step, m);
    Distribute(0, a / m, m);
    RemainderIs(a % m - a, -(a / m), 0, m);
  }

  /** One cycle is the source's remainder, in either direction. */
  lemma NextIndexIsRemainder(i: nat, size: nat, direction: int)
    requires i < size
    ensures NextIndex(i, size, direction) == (i + Sign(direction)) % size
  {
    var next := i + Sign(direction);
    if next < 0 {
      RemainderIs(next, -1, size - 1, size);
    } else if next < size {
      RemainderIs(next, 0, next, size);
    } else {
      RemainderIs(next, 1, 0, size);
    }
  }

  /** `n` cycles move `n` places, modulo the length of the list. */
  lemma {:induction false} TurnedIsRemainder(i: nat, size: nat, direction: int, n: nat)
    requires i < size
    ensures Turned(i, size, direction, n) == (i + Sign(direction) * n) % size
  {
    if n == 0 {
      RemainderIs(i, 0, i, size);
    } else {
      TurnedIsRemainder(i, size, direction, n - 1);
      NextIndexIsRemainder(Turned(i, size, direction, n - 1), size, direction);
      RemainderOfStep(i + Sign(direction) * (n - 1), Sign(direction), size);
    }
  }

  /** The place is the one started from exactly after whole turns. */
  lemma TurnedReturnsIff(i: nat, size: nat, direction: int, n: nat)
    requires i < size
    ensures Turned(i, size, direction, n) == i <==> n % size == 0
  {
    TurnedIsRemainder(i, size, direction, n);
    RemainderIs(i, 0, i, size);
    SameRemainderIff(i + Sign(direction) * n, i, size);
    ZeroRemainderOfNegative(n, size);
  }

  /** `e` is `d` moved on by `n` cycles, and otherwise the same. */
  ghost predicate MovedOn(d: Draft, e: Draft, direction: int, n: nat)
    requires Inv(d)
  {
    && Inv(e) && e.providerId != "" && e.known == d.known && e.focus == d.focus
    && IndexIn(e.known, e.providerId) == Turned(IndexIn(d.known, d.providerId), |d.known|, direction, n)
    && (forall p :: DraftOf(e, p) == DraftOf(d, p))
  }

  lemma CycleMovesOn(d: Draft, e: Draft, direction: int, n: nat)
    requires Inv(d) && MovedOn(d, e, direction, n)
    ensures MovedOn(d, AfterCycle(e, direction), direction, n + 1)
  {
    CycleMoves(e, direction);
  }

  lemma {:induction false} IterateMovesOn(f: Draft -> Draft, d: Draft, direction: int, n: nat)
    requires Inv(d) && MovedOn(d, d, direction, 0)
    requires forall e, k: nat | MovedOn(d, e, direction, k) :: MovedOn(d, f(e), direction, k + 1)
    ensures MovedOn(d, Iterate(f, d, n), direction, n)
  {
    if n > 0 {
      IterateMovesOn(f, d, direction, n - 1);
    }
  }

  /** Any number of cycles in either direction moves that many places and changes no draft. */
  lemma CyclesAdvance(d: Draft, direction: int, n: nat)
    requires Inv(d) && d.providerId != ""
    ensures MovedOn(d, CycledTimes(d, direction, n), direction, n)
  {
    var f := CycleTo(direction);
    forall e, k: nat | MovedOn(d, e, direction, k) ensures MovedOn(d, f(e), direction, k + 1) {
      CycleMovesOn(d, e, direction, k);
    }
    IterateMovesOn(f, d, direction, n);
  }

  lemma {:induction false} IterateAfterOne(f: Draft -> Draft, d: Draft, n: nat)
    ensures Iterate(f, d, n + 1) == Iterate(f, f(d), n)
  {
    if n > 0 {
      IterateAfterOne(f, d, n - 1);
    } else {
      assert Iterate(f, d, 0) == d;
    }
  }

  lemma NamedStaysNamed(d: Draft, direction: int, n: nat)
    requires Inv(d) && d.providerId != ""
    ensures Iterate(CycleTo(direction), d, n).providerId != ""
  {
    CyclesAdvance(d, direction, n);
  }

  lemma IterationNames(f: Draft -> Draft, d: Draft, n: nat)
    requires n > 0
    requires forall k: nat :: Iterate(f, f(d), k).providerId != ""
    ensures Iterate(f, d, n).providerId != ""
  {
    IterateAfterOne(f, d, n - 1);
  }

  lemma CyclingNames(d: Draft, direction: int, n: nat)
    requires Inv(d) && n > 0
    ensures CycledTimes(d, direction, n).providerId != ""
  {
    var f := CycleTo(direction);
    CycleNames(d, direction);
    forall k: nat ensures Iterate(f, f(d), k).providerId != "" {
      NamedStaysNamed(f(d), direction, k);
    }
    IterationNames(f, d, n);
  }

  lemma CycleNames(d: Draft, direction: int)
    requires Inv(d)
    ensures Inv(AfterCycle(d, direction)) && AfterCycle(d, direction).providerId != ""
  {
    CycleKeepsInv(d, direction);
    var next := NextIndex(IndexIn(d.known, d.providerId), |d.known|, direction);
    assert d.known[next] in d.known;
  }

  /**
   Over every run, cycling `n` times in one direction returns to the same draft exactly when `n`
   is zero, or a provider was named and `n` is a multiple of the number of known providers.
   */
  lemma CyclingAroundReturnsIff(actions: seq<Action>, direction: int, n: nat)
    ensures var d := Run(actions);
      && d.known != []
      && (SameDraft(d, CycledTimes(d, direction, n)) <==> n == 0 || (d.providerId != "" && n % |d.known| == 0))
  {
    var d := Run(actions);
    RunKeepsInv(actions);
    if n == 0 {
    } else if d.providerId == "" {
      CyclingNames(d, direction, n);
    } else {
      var e := CycledTimes(d, direction, n);
      CyclesAdvance(d, direction, n);
      TurnedReturnsIff(IndexIn(d.known, d.providerId), |d.known|, direction, n);
      assert e.providerId == e.known[IndexIn(e.known, e.providerId)];
    }
  }
}
