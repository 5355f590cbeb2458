/**
 * What the backfill and the overview handler both do before their own work:
 * walk the platform's people and donations lists page by page, then index the
 * people by lower-cased email and group the donations by person id.
 */
module Fetch {
  import opened Results
  import opened Text
  import opened Domain
  import opened Remote

  const PageSize: nat := 100

  /**
   * The walk from `offset` onwards: request a page; a failed request ends the
   * walk with its error, an empty page ends it successfully, and otherwise the
   * page is kept and the next request starts `|page| + 1` further on.
   */
  function Walk<T>(l: Listing<T>, offset: nat): Result<seq<T>, string>
    decreases |l.items| + 1 - offset
  {
    match l.Page(offset, PageSize)
    case Failure(e) => Failure(e)
    case Success(page) =>
      if page == [] then Success([])
      else Prepend(page, Walk(l, offset + |page| + 1))
  }

  /** The offsets the walk from `offset` requests, in order; the last is the one that ends it. */
  function Offsets<T>(l: Listing<T>, offset: nat): (os: seq<nat>)
    ensures |os| >= 1 && os[0] == offset
    decreases |l.items| + 1 - offset
  {
    match l.Page(offset, PageSize)
    case Failure(_) => [offset]
    case Success(page) =>
      if page == [] then [offset]
      else [offset] + Offsets(l, offset + |page| + 1)
  }

  function PeopleRequests(account: Account, offsets: seq<nat>): seq<Call> {
    if offsets == [] then []
    else PeopleRequests(account, offsets[..|offsets| - 1]) + [PeopleRequest(account, offsets[|offsets| - 1], PageSize)]
  }

  function DonationsRequests(account: Account, offsets: seq<nat>): seq<Call> {
    if offsets == [] then []
    else DonationsRequests(account, offsets[..|offsets| - 1]) + [DonationsRequest(account, offsets[|offsets| - 1], PageSize)]
  }

  lemma PeopleLog(account: Account, requested: seq<nat>, offset: nat, before: seq<Call>)
    ensures before + PeopleRequests(account, requested + [offset])
         == (before + PeopleRequests(account, requested)) + [PeopleRequest(account, offset, PageSize)]
  {
    assert (requested + [offset])[..|requested|] == requested;
  }

  lemma DonationsLog(account: Account, requested: seq<nat>, offset: nat, before: seq<Call>)
    ensures before + DonationsRequests(account, requested + [offset])
         == (before + DonationsRequests(account, requested)) + [DonationsRequest(account, offset, PageSize)]
  {
    assert (requested + [offset])[..|requested|] == requested;
  }

  /** One step of the walk: a non-empty page is kept and the walk goes on past it. */
  lemma WalkStep<T>(l: Listing<T>, offset: nat)
    requires l.Page(offset, PageSize).Success? && l.Page(offset, PageSize).value != []
    ensures var next := offset + |l.Page(offset, PageSize).value| + 1;
      && next <= |l.items| + 1
      && Walk(l, offset) == Prepend(l.Page(offset, PageSize).value, Walk(l, next))
      && Offsets(l, offset) == [offset] + Offsets(l, next)
  {
  }

  /** The end of the walk: a failed request or an empty page. */
  lemma WalkEnd<T>(l: Listing<T>, offset: nat)
    requires l.Page(offset, PageSize).Failure? || l.Page(offset, PageSize).value == []
    ensures Offsets(l, offset) == [offset]
    ensures l.Page(offset, PageSize).Failure? ==> Walk(l, offset) == Failure(l.Page(offset, PageSize).error)
    ensures l.Page(offset, PageSize).Success? ==> Walk(l, offset) == Success([])
  {
  }

  /**
   * The walk as requests: every request but the last got a non-empty page,
   * and the next one starts that page's length plus one further on.
   */
  lemma {:induction false} OffsetsSteps<T>(l: Listing<T>, offset: nat)
    ensures var os := Offsets(l, offset);
      forall k | 0 <= k < |os| - 1 ::
        && l.Page(os[k], PageSize).Success?
        && l.Page(os[k], PageSize).value != []
        && os[k + 1] == os[k] + |l.Page(os[k], PageSize).value| + 1
    decreases |l.items| + 1 - offset
  {
    var os := Offsets(l, offset);
    var first := l.Page(offset, PageSize);
    if first.Success? && first.value != [] {
      var next := offset + |first.value| + 1;
      WalkStep(l, offset);
      OffsetsSteps(l, next);
      var rest := Offsets(l, next);
      forall k | 0 <= k < |os| - 1
        ensures l.Page(os[k], PageSize).Success? && l.Page(os[k], PageSize).value != []
        ensures os[k + 1] == os[k] + |l.Page(os[k], PageSize).value| + 1
      {
        if k > 0 {
          assert os[k] == rest[k - 1] && os[k + 1] == rest[k];
        }
      }
    } else {
      WalkEnd(l, offset);
    }
  }

  /**
   * How the walk ends: with the last requested page, which failed or was
   * empty; the walk fails exactly when that request failed, with its error.
   */
  lemma {:induction false} OffsetsEnd<T>(l: Listing<T>, offset: nat)
    ensures var last := Offsets(l, offset)[|Offsets(l, offset)| - 1];
      && (Walk(l, offset).Failure? <==> l.Page(last, PageSize).Failure?)
      && (Walk(l, offset).Failure? ==> Walk(l, offset).error == l.Page(last, PageSize).error)
      && (Walk(l, offset).Success? ==> l.Page(last, PageSize) == Success([]))
    decreases |l.items| + 1 - offset
  {
    var first := l.Page(offset, PageSize);
    if first.Success? && first.value != [] {
      var next := offset + |first.value| + 1;
      WalkStep(l, offset);
      OffsetsEnd(l, next);
      var rest := Offsets(l, next);
      assert Offsets(l, offset)[|Offsets(l, offset)| - 1] == rest[|rest| - 1];
    } else {
      WalkEnd(l, offset);
    }
  }

  /**
   * Where each fetched item comes from when no request fails: item `i` of the
   * result is the server's item `offset + i + i / 100`, because the step of
   * `|page| + 1` passes over one item after every full page. In all,
   * one item in every 101 is never fetched.
   */
  lemma {:induction false} WalkPositions<T>(l: Listing<T>, offset: nat)
    requires offset <= |l.items|
    requires Walk(l, offset).Success?
    ensures var r := Walk(l, offset).value;
      && |r| == (|l.items| - offset) - (|l.items| - offset) / (PageSize + 1)
      && forall i | 0 <= i < |r| :: r[i] == l.items[offset + i + i / PageSize]
    decreases |l.items| - offset
  {
    var n := |l.items|;
    var r := Walk(l, offset).value;
    var page := l.Page(offset, PageSize);
    if page.Success? && page.value != [] {
      var next := offset + |page.value| + 1;
      WalkStep(l, offset);
      var rest := Walk(l, next).value;
      assert r == page.value + rest;
      if next <= n {
        WalkPositions(l, next);
        FullPage(l, offset, next, page.value, rest, r);
      } else {
        WalkEnd(l, next);
        assert rest == [];
        assert page.value == l.items[offset..];
      }
    } else {
      WalkEnd(l, offset);
    }
  }

  /** A full page followed by the rest of the walk, `PageSize + 1` items further on. */
  lemma FullPage<T>(l: Listing<T>, offset: nat, next: nat, page: seq<T>, rest: seq<T>, r: seq<T>)
    requires next == offset + PageSize + 1 <= |l.items|
    requires page == l.items[offset..offset + PageSize] && r == page + rest
    requires |rest| == (|l.items| - next) - (|l.items| - next) / (PageSize + 1)
    requires forall i | 0 <= i < |rest| :: rest[i] == l.items[next + i + i / PageSize]
    ensures |r| == (|l.items| - offset) - (|l.items| - offset) / (PageSize + 1)
    ensures forall i | 0 <= i < |r| :: r[i] == l.items[offset + i + i / PageSize]
  {
    var m := |l.items| - offset;
    assert (m - (PageSize + 1)) / (PageSize + 1) == m / (PageSize + 1) - 1;
    forall i | 0 <= i < |r| ensures r[i] == l.items[offset + i + i / PageSize] {
      if i >= PageSize {
        assert r[i] == rest[i - PageSize];
        assert (i - PageSize) / PageSize == i / PageSize - 1;
      }
    }
  }

  /** The walk from offset 0 returns the whole list exactly when it holds at most one page. */
  lemma WalkLosesItems<T>(l: Listing<T>)
    requires Walk(l, 0).Success?
    ensures |l.items| <= PageSize ==> Walk(l, 0).value == l.items
    ensures |l.items| > PageSize ==> |Walk(l, 0).value| < |l.items|
  {
    WalkPositions(l, 0);
    var r := Walk(l, 0).value;
    if |l.items| <= PageSize {
      assert |r| == |l.items|;
      forall i | 0 <= i < |r| ensures r[i] == l.items[i] {
        assert i / PageSize == 0;
      }
    }
  }

  /**
   * The walk with its items so far carried along: what the pagination loop
   * ends with when it resumes at `offset` having fetched `acc`.
   */
  ghost function Gather<T>(l: Listing<T>, offset: nat, acc: seq<T>): Result<seq<T>, string>
    decreases |l.items| + 1 - offset
  {
    match l.Page(offset, PageSize)
    case Failure(e) => Failure(e)
    case Success(page) =>
      if page == [] then Success(acc)
      else Gather(l, offset + |page| + 1, acc + page)
  }

  /** The offsets requested so far followed by those the walk from `offset` requests. */
  ghost function Requested<T>(l: Listing<T>, offset: nat, acc: seq<nat>): seq<nat>
    decreases |l.items| + 1 - offset
  {
    match l.Page(offset, PageSize)
    case Failure(_) => acc + [offset]
    case Success(page) =>
      if page == [] then acc + [offset]
      else Requested(l, offset + |page| + 1, acc + [offset])
  }

  /** Resuming with items `acc` ends with `acc` before the rest of the walk. */
  lemma {:induction false} GatherWalk<T>(l: Listing<T>, offset: nat, acc: seq<T>)
    ensures Gather(l, offset, acc) == Prepend(acc, Walk(l, offset))
    decreases |l.items| + 1 - offset
  {
    match l.Page(offset, PageSize)
    case Failure(e) =>
    case Success(page) =>
      if page == [] {
        assert acc + [] == acc;
      } else {
        var next := offset + |page| + 1;
        GatherWalk(l, next, acc + page);
        PrependPrepend(acc, page, Walk(l, next));
      }
  }

  /** Resuming with requests `acc` ends with `acc` before the walk's own requests. */
  lemma {:induction false} RequestedOffsets<T>(l: Listing<T>, offset: nat, acc: seq<nat>)
    ensures Requested(l, offset, acc) == acc + Offsets(l, offset)
    decreases |l.items| + 1 - offset
  {
    match l.Page(offset, PageSize)
    case Failure(_) =>
    case Success(page) =>
      if page != [] {
        var next := offset + |page| + 1;
        RequestedOffsets(l, next, acc + [offset]);
        assert (acc + [offset]) + Offsets(l, next) == acc + ([offset] + Offsets(l, next));
      }
  }

  /** From offset 0 with nothing carried, the loop's two specifications are the walk's. */
  lemma WalkStart<T>(l: Listing<T>)
    ensures Gather(l, 0, []) == Walk(l, 0)
    ensures Requested(l, 0, []) == Offsets(l, 0)
  {
    GatherWalk(l, 0, []);
    PrependPrepend([], [], Walk(l, 0));
    RequestedOffsets(l, 0, []);
    assert [] + Offsets(l, 0) == Offsets(l, 0);
  }

  /** The pagination loop over the people list. */
  method FetchPeople(client: Client, account: Account) returns (r: Result<seq<Person>, string>)
    modifies client
    ensures r == Walk(client.people(account), 0)
    ensures client.calls == old(client.calls) + PeopleRequests(account, Offsets(client.people(account), 0))
  {
    ghost var l := client.people(account);
    var allDonors: seq<Person> := [];
    var offset: nat := 0;
    ghost var requested: seq<nat> := [];
    WalkStart(l);
    while true
      invariant offset <= |l.items| + 1
      invariant Gather(l, offset, allDonors) == Walk(l, 0)
      invariant Requested(l, offset, requested) == Offsets(l, 0)
      invariant client.calls == old(client.calls) + PeopleRequests(account, requested)
      decreases |l.items| + 1 - offset
    {
      var donors := client.ListPeople(account, offset, PageSize);
      PeopleLog(account, requested, offset, old(client.calls));
      requested := requested + [offset];
      if donors.Failure? {
        return Failure(donors.error);
      }
      if |donors.value| == 0 {
        break;
      }
      allDonors := allDonors + donors.value;
      offset := offset + |donors.value| + 1;
    }
    return Success(allDonors);
  }

  /** The pagination loop over the donations list. */
  method FetchDonations(client: Client, account: Account) returns (r: Result<seq<Donation>, string>)
    modifies client
    ensures r == Walk(client.donations(account), 0)
    ensures client.calls == old(client.calls) + DonationsRequests(account, Offsets(client.donations(account), 0))
  {
    ghost var l := client.donations(account);
    var allDonations: seq<Donation> := [];
    var offset: nat := 0;
    ghost var requested: seq<nat> := [];
    WalkStart(l);
    while true
      invariant offset <= |l.items| + 1
      invariant Gather(l, offset, allDonations) == Walk(l, 0)
      invariant Requested(l, offset, requested) == Offsets(l, 0)
      invariant client.calls == old(client.calls) + DonationsRequests(account, requested)
      decreases |l.items| + 1 - offset
    {
      var donations := client.ListDonations(account, offset, PageSize);
      DonationsLog(account, requested, offset, old(client.calls));
      requested := requested + [offset];
      if donations.Failure? {
        return Failure(donations.error);
      }
      if |donations.value| == 0 {
        break;
      }
      allDonations := allDonations + donations.value;
      offset := offset + |donations.value| + 1;
    }
    return Success(allDonations);
  }
}
