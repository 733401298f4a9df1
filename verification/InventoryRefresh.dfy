// The inventory page's guard against answers that arrive late.
module InventoryRefresh {
  import opened Prelude

  // Answers stand for the request they belong to. `latest` is the ref that
  // numbers the requests; `shown` is the request whose table is on the page;
  // `answered` are the requests whose last callback has not run yet.
  datatype Page = Page(latest: nat, loading: bool, shown: nat, error: Option<nat>, inFlight: set<nat>,
                       answered: set<nat>)

  const NEW_PAGE := Page(0, false, 0, None, {}, {})

  datatype Action = Refresh | Succeed(id: nat) | Fail(id: nat) | Finally(id: nat)

  // Requests are never cancelled, so any request in flight may answer next, and
  // a new one may start between an answer and the callback that follows it.
  function Apply(p: Page, a: Action): Page {
    match a
    case Refresh => p.(latest := p.latest + 1, loading := true, inFlight := p.inFlight + {p.latest + 1})
    case Succeed(id) =>
      if id !in p.inFlight then p
      else
        var q := p.(inFlight := p.inFlight - {id}, answered := p.answered + {id});
        if id != p.latest then q else q.(shown := id, error := None)
    case Fail(id) =>
      if id !in p.inFlight then p
      else
        var q := p.(inFlight := p.inFlight - {id}, answered := p.answered + {id});
        if id != p.latest then q else q.(error := Some(id))
    case Finally(id) =>
      if id !in p.answered then p
      else
        var q := p.(answered := p.answered - {id});
        if id != p.latest then q else q.(loading := false)
  }

  function Run(p: Page, actions: seq<Action>): Page {
    if actions == [] then p else Apply(Run(p, actions[..|actions| - 1]), actions[|actions| - 1])
  }

  ghost predicate ShowsAnswer(p: Page, id: nat) {
    (p.shown == id && p.error == None) || p.error == Some(id)
  }

  ghost predicate Inv(p: Page) {
    && (forall id :: id in p.inFlight || id in p.answered ==> 1 <= id <= p.latest)
    && p.inFlight !! p.answered
    && (p.loading <==> p.latest in p.inFlight || p.latest in p.answered)
    && p.shown <= p.latest
    && (p.latest > 0 && p.latest !in p.inFlight ==> ShowsAnswer(p, p.latest))
  }

  lemma {:induction false} InvRun(actions: seq<Action>)
    ensures Inv(Run(NEW_PAGE, actions))
  {
    if actions == [] {
    } else {
      InvRun(actions[..|actions| - 1]);
    }
  }

  /** In any order of requests and answers: the spinner is on exactly while the
      last request is unanswered or unfinished, and off it means that the page
      shows the answer, table or error, to that request. */
  lemma ShowsTheLastRequest(actions: seq<Action>)
    ensures var p := Run(NEW_PAGE, actions);
            && (p.loading <==> p.latest in p.inFlight || p.latest in p.answered)
            && (!p.loading && p.latest > 0 ==> ShowsAnswer(p, p.latest))
  {
    InvRun(actions);
  }

  lemma RunOneMore(actions: seq<Action>, a: Action)
    ensures Run(NEW_PAGE, actions + [a]) == Apply(Run(NEW_PAGE, actions), a)
  {
    assert (actions + [a])[..|actions|] == actions;
  }

  /** A newer table is never replaced by an older one. */
  lemma {:induction false} TablesOnlyGetNewer(before: seq<Action>, after: seq<Action>)
    ensures Run(NEW_PAGE, before).shown <= Run(NEW_PAGE, before + after).shown
    decreases |after|
  {
    if after == [] {
      assert before + after == before;
    } else {
      var n := |after| - 1;
      TablesOnlyGetNewer(before, after[..n]);
      InvRun(before + after[..n]);
      assert before + after == (before + after[..n]) + [after[n]];
      RunOneMore(before + after[..n], after[n]);
    }
  }
}
