/**
 What each action does to the config panel's draft, field by field
 (crates/liz-cli/src/view_model.rs).
 */
module ConfigEvents {
  import opened Common
  import opened ConfigDrafts

  /** The focus goes from the provider over base URL and API key to the model and around, or back. */
  lemma FocusGoesAround(d: Draft)
    ensures var next, back := Step(d, FocusNext), Step(d, FocusPrevious);
      && next == d.(focus := next.focus) && back == d.(focus := back.focus)
      && Step(next, FocusPrevious) == d && Step(back, FocusNext) == d
      && (d.focus == Provider ==> next.focus == BaseUrl && back.focus == Model)
      && (d.focus == BaseUrl ==> next.focus == ApiKey)
      && (d.focus == ApiKey ==> next.focus == Model)
  {
  }

  /** What the focused field reads. */
  ghost predicate Reads(d: Draft, text: string) {
    && (d.focus == Provider ==> d.providerId == text)
    && (d.focus == BaseUrl ==> d.fields.baseUrl == text)
    && (d.focus == ApiKey ==> d.fields.apiKey == text)
    && (d.focus == Model ==> d.fields.modelId == text)
  }

  /** All that the focused field leaves alone. */
  ghost predicate SameElsewhere(d: Draft, e: Draft) {
    && e.focus == d.focus
    && (d.focus != Provider ==> e.providerId == d.providerId)
    && (d.focus != BaseUrl ==> e.fields.baseUrl == d.fields.baseUrl)
    && (d.focus != ApiKey ==> e.fields.apiKey == d.fields.apiKey)
    && (d.focus != Model ==> e.fields.modelId == d.fields.modelId)
  }

  /** The draft is dirty, a named provider is listed, first if it is new, and its cached draft is what is shown. */
  ghost predicate Kept(d: Draft, e: Draft) {
    && e.dirty
    && (if e.providerId == "" then e.known == d.known && e.overrides == d.overrides
        else
          && e.overrides == d.overrides[e.providerId := e.fields]
          && e.known == (if e.providerId in d.known then d.known else [e.providerId] + d.known))
  }

  /** A character goes to the end of the focused field; the last one is taken off, if there is one. */
  lemma TypingDoes(d: Draft, text: string, c: char)
    requires Reads(d, text)
    ensures var e := Step(d, PushChar(c)); Reads(e, text + [c]) && SameElsewhere(d, e) && Kept(d, e)
    ensures var e := Step(d, PopChar);
      if text == "" then e == d else Reads(e, text[..|text| - 1]) && SameElsewhere(d, e) && Kept(d, e)
  {
  }

  /** Cycling shows the cached draft of the provider it comes to, or an empty one. */
  lemma CyclingShows(d: Draft, direction: int)
    requires Inv(d)
    ensures var e := Step(d, Cycle(direction));
      && e.dirty && e.focus == d.focus && e.known == d.known && e.providerId in d.known
      && e.overrides == (if d.providerId == "" then d.overrides else d.overrides[d.providerId := d.fields])
      && e.fields == (if e.providerId in e.overrides then e.overrides[e.providerId] else Fields("", "", ""))
      && (d.providerId == "" ==>
            e.providerId == if direction < 0 then d.known[|d.known| - 1]
                            else if |d.known| == 1 then d.known[0] else d.known[1])
  {
  }

  /** The last configured draft of a provider counts. */
  ghost predicate IsConfigured(providers: seq<(ProviderId, Fields)>, p: ProviderId, f: Fields) {
    exists i | 0 <= i < |providers| ::
      providers[i] == (p, f) && forall j | i < j < |providers| :: providers[j].0 != p
  }

  lemma {:induction false} OverridesAreConfigured(providers: seq<(ProviderId, Fields)>, p: ProviderId)
    ensures p in OverridesOf(providers) <==> exists f :: IsConfigured(providers, p, f)
    ensures forall f :: IsConfigured(providers, p, f) ==> p in OverridesOf(providers) && OverridesOf(providers)[p] == f
  {
    if providers != [] {
      var n := |providers| - 1;
      var front := providers[..n];
      OverridesAreConfigured(front, p);
      forall f ensures IsConfigured(providers, p, f)
          <==> if providers[n].0 == p then providers[n].1 == f else IsConfigured(front, p, f)
      {
        ConfiguredSnoc(front, providers[n], p, f);
        assert providers == front + [providers[n]];
      }
      if providers[n].0 == p {
        assert IsConfigured(providers, p, providers[n].1);
      } else if p in OverridesOf(front) {
        var f :| IsConfigured(front, p, f);
        assert IsConfigured(providers, p, f);
      }
      if f :| IsConfigured(providers, p, f) {
        assert providers[n].0 == p || IsConfigured(front, p, f);
      }
    }
  }

  lemma ConfiguredSnoc(front: seq<(ProviderId, Fields)>, last: (ProviderId, Fields), p: ProviderId, f: Fields)
    ensures IsConfigured(front + [last], p, f) <==> if last.0 == p then last.1 == f else IsConfigured(front, p, f)
  {
    var all := front + [last];
    if last.0 == p && last.1 == f {
      assert all[|front|] == (p, f);
    }
    if last.0 != p && IsConfigured(front, p, f) {
      var i :| 0 <= i < |front| && front[i] == (p, f) && forall j | i < j < |front| :: front[j].0 != p;
      assert all[i] == (p, f);
    }
    if IsConfigured(all, p, f) {
      var i :| 0 <= i < |all| && all[i] == (p, f) && forall j | i < j < |all| :: all[j].0 != p;
      if i < |front| {
        assert all[|front|].0 != p && front[i] == (p, f);
        assert forall j | i < j < |front| :: front[j] == all[j];
      }
    }
  }

  lemma {:induction false} ListedAre(known: seq<ProviderId>, more: seq<ProviderId>)
    ensures known <= WithProviders(known, more)
    ensures forall p :: p in WithProviders(known, more) <==> p in known || (p in more && p != "")
  {
    if more != [] {
      var front, last := more[..|more| - 1], more[|more| - 1];
      assert more == front + [last];
      ListedAre(known, front);
    }
  }

  /** The current provider, the fallback, a built-in, configured or signed-in one. */
  ghost predicate IsOffered(p: ProviderId, current: ProviderId, config: Config, profiles: seq<ProviderId>,
      fallback: Option<ProviderId>)
  {
    || p == current || fallback == Some(p) || p in profiles
    || p in ["openai", "anthropic", "openai-codex", "github-copilot", "gitlab", "minimax"]
    || exists i | 0 <= i < |config.providers| :: config.providers[i].0 == p
  }

  lemma KeysAre(providers: seq<(ProviderId, Fields)>, p: ProviderId)
    ensures p in Keys(providers) <==> exists i | 0 <= i < |providers| :: providers[i].0 == p
  {
    if i :| 0 <= i < |providers| && providers[i].0 == p {
      assert Keys(providers)[i] == p;
    }
  }

  lemma OfferedAreListed(p: ProviderId, current: ProviderId, config: Config, profiles: seq<ProviderId>,
      fallback: Option<ProviderId>)
    ensures p in KnownProviders(current, config, profiles, fallback)
       <==> p != "" && IsOffered(p, current, config, profiles, fallback)
  {
    var first := [current] + (if fallback.Some? then [fallback.value] else []) + BUILTIN_PROVIDERS;
    ListedAre([], first);
    ListedAre(WithProviders([], first), Keys(config.providers));
    ListedAre(WithProviders(WithProviders([], first), Keys(config.providers)), profiles);
    KeysAre(config.providers, p);
  }

  /** Loading shows the configured draft of the primary provider, and lists every provider there is. */
  lemma LoadDoes(d: Draft, config: Config, profiles: seq<ProviderId>, fallback: Option<ProviderId>)
    ensures var e := Step(d, Load(config, profiles, fallback));
      && e.providerId == (if config.primary.Some? then config.primary.value
                          else if fallback.Some? then fallback.value else "openai")
      && e.focus == Provider && !e.dirty
      && (forall p, f :: IsConfigured(config.providers, p, f) ==> p in e.overrides && e.overrides[p] == f)
      && (forall p <- e.overrides :: exists f :: IsConfigured(config.providers, p, f))
      && e.fields == (if e.providerId in e.overrides then e.overrides[e.providerId] else Fields("", "", ""))
      && (forall p :: p in e.known <==> p != "" && IsOffered(p, e.providerId, config, profiles, fallback))
      && (e.providerId != "" ==> e.known != [] && e.known[0] == e.providerId)
  {
    var e := Step(d, Load(config, profiles, fallback));
    var first := [e.providerId] + (if fallback.Some? then [fallback.value] else []) + BUILTIN_PROVIDERS;
    forall p, f | IsConfigured(config.providers, p, f) ensures p in e.overrides && e.overrides[p] == f {
      OverridesAreConfigured(config.providers, p);
    }
    forall p <- e.overrides ensures exists f :: IsConfigured(config.providers, p, f) {
      OverridesAreConfigured(config.providers, p);
    }
    forall p ensures p in e.known <==> p != "" && IsOffered(p, e.providerId, config, profiles, fallback) {
      OfferedAreListed(p, e.providerId, config, profiles, fallback);
    }
    ListedAre(WithProviders([], first), Keys(config.providers));
    ListedAre(WithProviders(WithProviders([], first), Keys(config.providers)), profiles);
    if e.providerId != "" {
      NamedComesFirst(first);
    }
  }

  lemma {:induction false} NamedComesFirst(first: seq<ProviderId>)
    requires first != [] && first[0] != ""
    ensures WithProviders([], first) != [] && WithProviders([], first)[0] == first[0]
  {
    if |first| > 1 {
      NamedComesFirst(first[..|first| - 1]);
    } else {
      assert first[..0] == [];
    }
  }
}
