/** The catalog cache of model-info: every ingest is authorized with a ticket before its body is parsed, and
    may replace the catalog later only if nothing newer was authorized and nothing was reconfigured. */
module CatalogTickets {
  import opened Options

  /** A parsed catalog; only identity matters here. */
  type Catalog = nat

  datatype Authorization = Authorization(generation: nat, ticket: nat)

  datatype State = State(configured: bool, generation: nat, latest: nat, committed: nat, last: Option<Catalog>)

  const FRESH := State(false, 0, 0, 0, None)

  datatype Event = Configure | Authorize(authorization: Authorization) | Commit(authorization: Authorization, catalog: Catalog) | Shutdown

  predicate Accepts(s: State, authorization: Authorization) {
    && s.configured && s.generation == authorization.generation
    && authorization.ticket == s.latest && authorization.ticket > s.committed
  }

  predicate Enabled(s: State, event: Event) {
    match event
    case Authorize(authorization) => s.configured && authorization == Authorization(s.generation, s.latest + 1)
    case Commit(authorization, _) => Accepts(s, authorization)
    case _ => true
  }

  function Apply(s: State, event: Event): State {
    match event
    case Configure => s.(configured := true, generation := s.generation + 1, latest := s.latest + 1)
    case Authorize(_) => s.(latest := s.latest + 1)
    case Commit(authorization, catalog) => s.(last := Some(catalog), committed := authorization.ticket)
    case Shutdown => s.(configured := false, latest := s.latest + 1)
  }

  /** The state after a history, oldest event first. */
  function Run(history: seq<Event>): State {
    if history == [] then FRESH else Apply(Run(history[..|history| - 1]), history[|history| - 1])
  }

  ghost predicate Legal(history: seq<Event>) {
    forall k :: 0 <= k < |history| ==> Enabled(Run(history[..k]), history[k])
  }

  // ---------- the service ----------

  class Service {
    var configured: bool
    var reconfigureSeq: nat
    var latestIngestTicket: nat
    var committedIngestTicket: nat
    var last: Option<Catalog>
    ghost var history: seq<Event>

    /** The fields are what the sections entered so far have made of them. */
    ghost predicate Valid() reads this {
      Legal(history) && Run(history) == State(configured, reconfigureSeq, latestIngestTicket, committedIngestTicket, last)
    }

    constructor ()
      ensures Valid() && history == []
    {
      configured, reconfigureSeq, latestIngestTicket, committedIngestTicket, last := false, 0, 0, 0, None;
      history := [];
    }

    ghost method Record(event: Event)
      requires Legal(history) && Enabled(Run(history), event)
      modifies this`history
      ensures history == old(history) + [event] && Legal(history) && Run(history) == Apply(Run(old(history)), event)
    {
      RunNext(history, event);
      history := history + [event];
    }

    /** `parsed` says whether the configuration could be read; one that could not changes nothing. */
    method ConfigureWith(parsed: bool) returns (ok: bool)
      requires Valid()
      modifies this
      ensures Valid() && ok == parsed
      ensures history == old(history) + if ok then [Event.Configure] else []
    {
      if !parsed {
        return false;
      }
      configured, reconfigureSeq, latestIngestTicket := true, reconfigureSeq + 1, latestIngestTicket + 1;
      Record(Event.Configure);
      return true;
    }

    /** `matches` says whether the token is the configured one. */
    method AuthorizeIngest(matches: bool) returns (authorization: Option<Authorization>)
      requires Valid()
      modifies this
      ensures Valid() && (authorization.Some? <==> old(configured) && matches)
      ensures history == old(history) + if authorization.Some? then [Authorize(authorization.value)] else []
    {
      if !configured || !matches {
        return None;
      }
      latestIngestTicket := latestIngestTicket + 1;
      authorization := Some(Authorization(reconfigureSeq, latestIngestTicket));
      Record(Authorize(authorization.value));
    }

    method ReplaceCatalog(authorization: Authorization, catalog: Catalog) returns (replaced: bool)
      requires Valid()
      modifies this
      ensures Valid() && (replaced <==> Accepts(Run(old(history)), authorization))
      ensures history == old(history) + if replaced then [Commit(authorization, catalog)] else []
    {
      if !configured || reconfigureSeq != authorization.generation || authorization.ticket != latestIngestTicket
         || authorization.ticket <= committedIngestTicket {
        return false;
      }
      last := Some(catalog);
      committedIngestTicket := authorization.ticket;
      Record(Commit(authorization, catalog));
      return true;
    }

    method Stop()
      requires Valid()
      modifies this
      ensures Valid() && history == old(history) + [Event.Shutdown]
    {
      configured, latestIngestTicket := false, latestIngestTicket + 1;
      Record(Event.Shutdown);
    }
  }

  lemma RunNext(history: seq<Event>, event: Event)
    requires Legal(history) && Enabled(Run(history), event)
    ensures Legal(history + [event]) && Run(history + [event]) == Apply(Run(history), event)
  {
    var longer := history + [event];
    assert longer[..|history|] == history;
    forall k | 0 <= k < |longer| ensures Enabled(Run(longer[..k]), longer[k]) {
      assert longer[..k] == history[..k];
    }
  }

  lemma RunLast(history: seq<Event>)
    requires Legal(history) && history != []
    ensures var n := |history| - 1;
      Run(history) == Apply(Run(history[..n]), history[n]) && Enabled(Run(history[..n]), history[n])
  {
  }

  lemma LegalPrefix(history: seq<Event>, k: nat)
    requires Legal(history) && k <= |history|
    ensures Legal(history[..k])
  {
    forall j | 0 <= j < k ensures Enabled(Run(history[..k][..j]), history[..k][j]) {
      assert history[..k][..j] == history[..j];
    }
  }

  // ---------- the protocol ----------

  /** Events that take the right to commit away from every earlier ticket. */
  predicate Supersedes(event: Event) {
    event.Configure? || event.Authorize? || event.Shutdown?
  }

  /** Nothing after position k supersedes it. */
  ghost predicate Newest(history: seq<Event>, k: nat) {
    forall j :: k < j < |history| ==> !Supersedes(history[j])
  }

  /** Tickets only grow, committed ones never overtake, and a commit concerns the ticket issued last. */
  lemma {:induction false} RunInvariant(history: seq<Event>)
    requires Legal(history)
    ensures Run(history).committed <= Run(history).latest
  {
    if history != [] {
      LegalPrefix(history, |history| - 1);
      RunInvariant(history[..|history| - 1]);
    }
  }

  lemma {:induction false} LatestGrows(history: seq<Event>, k: nat)
    requires Legal(history) && k < |history|
    ensures Run(history[..k + 1]).latest <= Run(history).latest
    ensures Run(history[..k + 1]).latest == Run(history).latest <==> Newest(history, k)
    ensures Newest(history, k) ==>
      Run(history[..k + 1]).generation == Run(history).generation && Run(history[..k + 1]).configured == Run(history).configured
    decreases |history|
  {
    hide Run;
    var n := |history| - 1;
    RunLast(history);
    if k < n {
      hide Enabled;
      LegalPrefix(history, n);
      LatestGrows(history[..n], k);
      assert history[..n][..k + 1] == history[..k + 1];
      NewestNext(history, k);
      hide Newest;
    } else {
      assert history[..k + 1] == history;
    }
  }

  lemma NewestNext(history: seq<Event>, k: nat)
    requires k + 1 < |history|
    ensures var n := |history| - 1;
      Newest(history, k) <==> Newest(history[..n], k) && !Supersedes(history[n])
  {
    var n := |history| - 1;
    assert forall j :: k < j < n ==> history[..n][j] == history[j];
  }

  ghost predicate HasCommitted(history: seq<Event>, ticket: nat) {
    exists j :: 0 <= j < |history| && history[j].Commit? && history[j].authorization.ticket >= ticket
  }

  /** The committed ticket is the largest that was ever committed. */
  lemma {:induction false} CommittedIsLast(history: seq<Event>, ticket: nat)
    requires Legal(history) && ticket > 0
    ensures Run(history).committed >= ticket <==> HasCommitted(history, ticket)
    decreases |history|
  {
    hide Run, Legal;
    if history == [] {
      RunNothing();
    } else {
      var n := |history| - 1;
      RunLast(history);
      LegalPrefix(history, n);
      CommittedIsLast(history[..n], ticket);
      CommittedNext(history, ticket);
      hide HasCommitted;
    }
  }

  lemma RunNothing()
    ensures Run([]) == FRESH
  {
  }

  lemma CommittedNext(history: seq<Event>, ticket: nat)
    requires history != []
    ensures var n := |history| - 1;
      HasCommitted(history, ticket) <==>
        HasCommitted(history[..n], ticket) || (history[n].Commit? && history[n].authorization.ticket >= ticket)
  {
    var n := |history| - 1;
    if HasCommitted(history[..n], ticket) {
      var j :| 0 <= j < n && history[..n][j].Commit? && history[..n][j].authorization.ticket >= ticket;
      assert history[j].Commit? && history[j].authorization.ticket >= ticket;
    }
    if HasCommitted(history, ticket) {
      var j :| 0 <= j <= n && history[j].Commit? && history[j].authorization.ticket >= ticket;
      assert j < n ==> history[..n][j] == history[j];
    }
  }

  /** An authorized ingest may replace the catalog exactly when nothing was authorized, reconfigured or shut
      down since, and it has not replaced the catalog already. */
  lemma {:induction false} CommitsExactly(history: seq<Event>, k: nat)
    requires Legal(history) && k < |history| && history[k].Authorize?
    ensures Accepts(Run(history), history[k].authorization) <==>
      Newest(history, k) && forall j :: k < j < |history| ==> !(history[j].Commit? && history[j].authorization == history[k].authorization)
  {
    var authorization := history[k].authorization;
    assert Enabled(Run(history[..k]), history[k]);
    assert history[..k + 1][..k] == history[..k];
    LatestGrows(history, k);
    CommittedIsLast(history, authorization.ticket);
    forall j | 0 <= j < |history| && history[j].Commit?
      ensures history[j].authorization.ticket >= authorization.ticket ==> j > k
      ensures Newest(history, k) && j > k ==> history[j].authorization == authorization
    {
      CommitAfter(history, k, j);
    }
  }

  /** A commit concerns the newest ticket at its time: an earlier one has a smaller ticket, a later one the
      authorization itself or a newer ticket. */
  lemma {:induction false} CommitAfter(history: seq<Event>, k: nat, j: nat)
    requires Legal(history) && k < |history| && history[k].Authorize? && j < |history| && history[j].Commit?
    ensures j < k ==> history[j].authorization.ticket < history[k].authorization.ticket
    ensures j > k && Newest(history, k) ==> history[j].authorization == history[k].authorization
  {
    assert Enabled(Run(history[..k]), history[k]) && Enabled(Run(history[..j]), history[j]);
    assert history[..k + 1][..k] == history[..k];
    if j < k {
      LegalPrefix(history, k);
      LatestGrows(history[..k], j);
      assert history[..k][..j + 1] == history[..j + 1] && history[..j + 1][..j] == history[..j];
    } else if j > k && Newest(history, k) {
      LegalPrefix(history, j);
      LatestGrows(history[..j], k);
      assert history[..j][..k + 1] == history[..k + 1];
    }
  }

  /** Committed tickets strictly increase, so no ingest replaces the catalog of a newer one. */
  lemma {:induction false} CommitsIncrease(history: seq<Event>, i: nat, j: nat)
    requires Legal(history) && i < j < |history| && history[i].Commit? && history[j].Commit?
    ensures history[i].authorization.ticket < history[j].authorization.ticket
  {
    assert Enabled(Run(history[..j]), history[j]) && Enabled(Run(history[..i]), history[i]);
    LegalPrefix(history, j);
    if history[i].authorization.ticket > 0 {
      CommittedIsLast(history[..j], history[i].authorization.ticket);
      assert history[..j][i] == history[i];
    }
  }

  /** For issued tickets the generation says nothing the ticket does not say: reconfiguring takes a ticket too. */
  lemma {:induction false} GenerationImplied(history: seq<Event>, k: nat)
    requires Legal(history) && k < |history| && history[k].Authorize?
    requires history[k].authorization.ticket == Run(history).latest
    ensures Run(history).configured && Run(history).generation == history[k].authorization.generation
  {
    assert Enabled(Run(history[..k]), history[k]);
    assert history[..k + 1][..k] == history[..k];
    LatestGrows(history, k);
  }

  /** The catalog served is that of the last commit. */
  lemma {:induction false} LastIsServed(history: seq<Event>, k: nat)
    requires k < |history| && history[k].Commit? && forall j :: k < j < |history| ==> !history[j].Commit?
    ensures Run(history).last == Some(history[k].catalog)
    decreases |history|
  {
    var n := |history| - 1;
    if k < n {
      assert forall j :: k < j < n ==> history[..n][j] == history[j];
      LastIsServed(history[..n], k);
    }
  }

  lemma {:induction false} NothingServed(history: seq<Event>)
    requires forall j :: 0 <= j < |history| ==> !history[j].Commit?
    ensures Run(history).last == None
    decreases |history|
  {
    if history != [] {
      var n := |history| - 1;
      assert forall j :: 0 <= j < n ==> history[..n][j] == history[j];
      NothingServed(history[..n]);
    }
  }
}
