/**
 * The campaign overview the dashboard serves: every person of the account
 * who is not the test account and has a pledge in the collection report, with
 * their donations, adjustments and pledge, sorted by last name, next to the
 * campaign's own fields. Any failed request answers with an internal error.
 */
module Overview {
  import opened Results
  import opened Text
  import opened Domain
  import opened Remote
  import opened Fetch
  import opened Index

  /** The first name that marks the platform's test person. */
  const TestFirstName: string := "Testy"

  /** The handler's answer: the overview, or a 500 carrying the error's message. */
  datatype Response = Ok(overview: CampaignOverview) | InternalError(details: string)

  /**
   * The donors the handler keeps, in the order of `people`. The test person is
   * passed over before anything is asked about them; every other person's
   * adjustments are read, and a failed read ends the selection with its error
   * even when the person's pledge would have dropped them; a person without a
   * pledge, or with a pledge of 0, is then passed over.
   */
  function Selected(store: AdjustmentStore, groups: map<string, seq<Donation>>, pledges: map<string, real>,
                    people: seq<Person>): Result<seq<Donor>, string>
  {
    if people == [] then Success([])
    else
      var p := people[0];
      if p.firstName == TestFirstName then Selected(store, groups, pledges, people[1..])
      else match store.stored(p)
        case Failure(e) => Failure(e)
        case Success(adjustments) =>
          var pledge := PledgeOf(pledges, Lower(p.email));
          if pledge == 0.0 then Selected(store, groups, pledges, people[1..])
          else Prepend([Donor(p, GroupOf(groups, p.id), adjustments, pledge)], Selected(store, groups, pledges, people[1..]))
  }

  /** The adjustment reads the selection makes: one per non-test person, up to the first that fails. */
  function Lookups(store: AdjustmentStore, people: seq<Person>): seq<StoreCall> {
    if people == [] then []
    else
      var p := people[0];
      if p.firstName == TestFirstName then Lookups(store, people[1..])
      else if store.stored(p).Failure? then [GetRequest(p)]
      else [GetRequest(p)] + Lookups(store, people[1..])
  }

  /** Whether the person's adjustment read fails. */
  predicate LookupFails(store: AdjustmentStore, p: Person) {
    p.firstName != TestFirstName && store.stored(p).Failure?
  }

  /**
   * The selection fails exactly when some non-test person's adjustment read
   * fails, and then with the error of the first such person.
   */
  lemma {:induction false} SelectedFails(store: AdjustmentStore, groups: map<string, seq<Donation>>,
                                         pledges: map<string, real>, people: seq<Person>)
    ensures Selected(store, groups, pledges, people).Failure? <==>
      exists i :: 0 <= i < |people| && LookupFails(store, people[i])
    ensures Selected(store, groups, pledges, people).Failure? ==>
      exists i :: 0 <= i < |people| && LookupFails(store, people[i]) &&
        Selected(store, groups, pledges, people).error == store.stored(people[i]).error &&
        forall j :: 0 <= j < i ==> !LookupFails(store, people[j])
  {
    if people != [] {
      var rest := people[1..];
      SelectedFails(store, groups, pledges, rest);
      if Selected(store, groups, pledges, people).Failure? && !LookupFails(store, people[0]) {
        var i :| 0 <= i < |rest| && LookupFails(store, rest[i]) &&
          Selected(store, groups, pledges, rest).error == store.stored(rest[i]).error &&
          forall j :: 0 <= j < i ==> !LookupFails(store, rest[j]);
        assert people[i + 1] == rest[i];
        forall j | 0 <= j < i + 1 ensures !LookupFails(store, people[j]) {
          if j > 0 { assert people[j] == rest[j - 1]; }
        }
      }
      if exists i :: 0 <= i < |people| && LookupFails(store, people[i]) {
        var i :| 0 <= i < |people| && LookupFails(store, people[i]);
        if i > 0 { assert rest[i - 1] == people[i]; }
      }
    }
  }

  /**
   * On success, every donor kept is a person of the list who is not the test
   * person and has a non-zero pledge, carrying that pledge, their donations
   * and their stored adjustments.
   */
  lemma {:induction false} SelectedSound(store: AdjustmentStore, groups: map<string, seq<Donation>>,
                                         pledges: map<string, real>, people: seq<Person>)
    requires Selected(store, groups, pledges, people).Success?
    ensures forall d | d in Selected(store, groups, pledges, people).value ::
      && d.person in people
      && d.person.firstName != TestFirstName
      && d.pledge == PledgeOf(pledges, Lower(d.person.email)) && d.pledge != 0.0
      && d.donations == GroupOf(groups, d.person.id)
      && store.stored(d.person) == Success(d.adjustments)
  {
    if people != [] {
      SelectedSound(store, groups, pledges, people[1..]);
    }
  }

  /**
   * On success, every person of the list who is not the test person and has a
   * non-zero pledge is kept.
   */
  lemma {:induction false} SelectedComplete(store: AdjustmentStore, groups: map<string, seq<Donation>>,
                                            pledges: map<string, real>, people: seq<Person>, p: Person)
    requires Selected(store, groups, pledges, people).Success?
    requires p in people && p.firstName != TestFirstName && PledgeOf(pledges, Lower(p.email)) != 0.0
    ensures exists d :: d in Selected(store, groups, pledges, people).value && d.person == p
  {
    var rest := people[1..];
    if people[0] == p {
      var d := Donor(p, GroupOf(groups, p.id), store.stored(p).value, PledgeOf(pledges, Lower(p.email)));
      assert Selected(store, groups, pledges, people).value[0] == d;
    } else {
      assert p in rest;
      SelectedComplete(store, groups, pledges, rest, p);
    }
  }

  /**
   * The reads are one per non-test person in list order; they stop at the
   * first that fails, and reach the end of the list when none does.
   */
  lemma {:induction false} LookupsSpec(store: AdjustmentStore, people: seq<Person>)
    ensures forall c | c in Lookups(store, people) ::
      c.GetRequest? && c.person in people && c.person.firstName != TestFirstName
    ensures (forall i | 0 <= i < |people| :: !LookupFails(store, people[i])) ==>
      forall p | p in people && p.firstName != TestFirstName :: GetRequest(p) in Lookups(store, people)
    ensures forall i | 0 <= i < |people| && LookupFails(store, people[i]) ::
      GetRequest(people[i]) in Lookups(store, people) ||
      exists j :: 0 <= j < i && LookupFails(store, people[j])
  {
    if people != [] {
      var rest := people[1..];
      LookupsSpec(store, rest);
      forall i | 0 <= i < |people| && LookupFails(store, people[i])
        ensures GetRequest(people[i]) in Lookups(store, people) ||
          exists j :: 0 <= j < i && LookupFails(store, people[j])
      {
        if i > 0 {
          assert people[i] == rest[i - 1];
          if exists j :: 0 <= j < i - 1 && LookupFails(store, rest[j]) {
            var j :| 0 <= j < i - 1 && LookupFails(store, rest[j]);
            assert people[j + 1] == rest[j];
          }
        }
      }
      if forall i | 0 <= i < |people| :: !LookupFails(store, people[i]) {
        assert forall i | 0 <= i < |rest| :: !LookupFails(store, rest[i]) by {
          forall i | 0 <= i < |rest| ensures !LookupFails(store, rest[i]) {
            assert rest[i] == people[i + 1];
          }
        }
      }
    }
  }

  /** The selection loop, with its early return on a failed read. */
  method SelectDonors(store: AdjustmentStore, groups: map<string, seq<Donation>>, pledges: map<string, real>,
                      everyone: seq<Person>)
    returns (r: Result<seq<Donor>, string>)
    modifies store
    ensures r == Selected(store, groups, pledges, everyone)
    ensures store.calls == old(store.calls) + Lookups(store, everyone)
  {
    var donors: seq<Donor> := [];
    ghost var issued: seq<StoreCall> := [];
    assert everyone[0..] == everyone;
    PrependPrepend([], [], Selected(store, groups, pledges, everyone));
    for i := 0 to |everyone|
      invariant Selected(store, groups, pledges, everyone) == Prepend(donors, Selected(store, groups, pledges, everyone[i..]))
      invariant Lookups(store, everyone) == issued + Lookups(store, everyone[i..])
      invariant store.calls == old(store.calls) + issued
    {
      var person := everyone[i];
      assert everyone[i..][1..] == everyone[i + 1..];
      if person.firstName == TestFirstName {
        continue;
      }
      var donations := GroupOf(groups, person.id);
      var adjustments := store.GetAdjustmentsByPerson(person);
      if adjustments.Failure? {
        return Failure(adjustments.error);
      }
      issued := issued + [GetRequest(person)];
      var pledge := PledgeOf(pledges, Lower(person.email));
      if pledge == 0.0 {
        continue;
      }
      var donor := Donor(person, donations, adjustments.value, pledge);
      PrependPrepend(donors, [donor], Selected(store, groups, pledges, everyone[i + 1..]));
      donors := donors + [donor];
    }
    assert donors + [] == donors;
    return Success(donors);
  }

  /** `x` may come before `y` in the output: `y`'s last name is not below `x`'s. */
  predicate NotAfter(x: Donor, y: Donor) {
    !Less(y.person.lastName, x.person.lastName)
  }

  lemma NotAfterTransitive(x: Donor, y: Donor, z: Donor)
    requires NotAfter(x, y) && NotAfter(y, z)
    ensures NotAfter(x, z)
  {
    var a, b, c := x.person.lastName, y.person.lastName, z.person.lastName;
    if Less(c, a) {
      if Less(a, b) {
        LessTransitive(c, a, b);
      } else {
        LessTotal(a, b);
      }
    }
  }

  /** Two donors out of order swap into order. */
  lemma NotAfterSwapped(x: Donor, y: Donor)
    requires Less(y.person.lastName, x.person.lastName)
    ensures NotAfter(y, x)
  {
    if Less(x.person.lastName, y.person.lastName) {
      LessTransitive(x.person.lastName, y.person.lastName, x.person.lastName);
      LessIrreflexive(x.person.lastName);
    }
  }

  /** Non-decreasing by last name. */
  predicate SortedByLastName(s: seq<Donor>) {
    forall k, l | 0 <= k < l < |s| :: NotAfter(s[k], s[l])
  }

  /**
   * The in-place sort by last name, by insertion with adjacent swaps. Donors
   * with equal last names may end up in any order; only the ordering and the
   * contents are promised.
   */
  method SortByLastName(a: array<Donor>)
    modifies a
    ensures SortedByLastName(a[..])
    ensures multiset(a[..]) == multiset(old(a[..]))
  {
    for i := 0 to a.Length
      invariant SortedByLastName(a[..i])
      invariant multiset(a[..]) == multiset(old(a[..]))
    {
      InsertInPlace(a, i);
    }
    assert a[..a.Length] == a[..];
  }

  /** One pass of the sort: moves `a[i]` down into the sorted prefix `a[..i]`. */
  method InsertInPlace(a: array<Donor>, i: nat)
    requires i < a.Length
    requires SortedByLastName(a[..i])
    modifies a
    ensures SortedByLastName(a[..i + 1])
    ensures multiset(a[..]) == multiset(old(a[..]))
  {
    var j := i;
    while j > 0 && Less(a[j].person.lastName, a[j - 1].person.lastName)
      invariant 0 <= j <= i
      invariant forall k, l | 0 <= k < l <= i && k != j && l != j :: NotAfter(a[k], a[l])
      invariant forall l | j < l <= i :: NotAfter(a[j], a[l])
      invariant multiset(a[..]) == multiset(old(a[..]))
    {
      NotAfterSwapped(a[j - 1], a[j]);
      a[j - 1], a[j] := a[j], a[j - 1];
      j := j - 1;
    }
    forall k, l | 0 <= k < l <= i
      ensures NotAfter(a[k], a[l])
    {
      if l == j && k < j - 1 {
        NotAfterTransitive(a[k], a[j - 1], a[j]);
      }
    }
  }

  /** The campaign fields of an overview. */
  function CampaignOf(o: CampaignOverview): Campaign {
    Campaign(o.id, o.title, o.slug, o.kind, o.url, o.status, o.permalink, o.description, o.content,
             o.created, o.updated, o.startDate, o.endDate, o.goalInCents, o.amountRaisedInCents, o.percentFunded)
  }

  /** The overview of `campaign` listing `donors`: the campaign's fields are copied unchanged. */
  function OverviewOf(campaign: Campaign, donors: seq<Donor>): (o: CampaignOverview)
    ensures CampaignOf(o) == campaign && o.donors == donors
  {
    CampaignOverview(campaign.id, campaign.title, campaign.slug, campaign.kind, campaign.url, campaign.status,
                     campaign.permalink, campaign.description, campaign.content, campaign.created,
                     campaign.updated, campaign.startDate, campaign.endDate, campaign.goalInCents,
                     campaign.amountRaisedInCents, campaign.percentFunded, donors)
  }

  /**
   * The handler. A failed people or donations request, or a failed adjustment
   * read, answers with an internal error carrying the failure's message;
   * otherwise the answer is the campaign's overview whose donors are the
   * selection, sorted by last name.
   */
  method CampaignOverviewHandler(client: Client, store: AdjustmentStore, account: Account, campaign: Campaign,
                                 collectionRecords: seq<CollectionRecord>)
    returns (response: Response)
    modifies client, store
    ensures var people := Walk(client.people(account), 0);
      var donations := Walk(client.donations(account), 0);
      var peopleCalls := PeopleRequests(account, Offsets(client.people(account), 0));
      var donationCalls := DonationsRequests(account, Offsets(client.donations(account), 0));
      && (people.Failure? ==>
            response == InternalError(people.error) &&
            client.calls == old(client.calls) + peopleCalls && store.calls == old(store.calls))
      && (people.Success? ==> client.calls == old(client.calls) + peopleCalls + donationCalls)
      && (people.Success? && donations.Failure? ==>
            response == InternalError(donations.error) && store.calls == old(store.calls))
      && (people.Success? && donations.Success? ==>
            var selected := Selected(store, Group(donations.value, PersonKey),
                                     LastWins(collectionRecords, RecordKey, Pledged), people.value);
            && store.calls == old(store.calls) + Lookups(store, people.value)
            && (selected.Failure? ==> response == InternalError(selected.error))
            && (selected.Success? ==>
                  && response.Ok?
                  && CampaignOf(response.overview) == campaign
                  && SortedByLastName(response.overview.donors)
                  && multiset(response.overview.donors) == multiset(selected.value)))
  {
    var everyone := FetchPeople(client, account);
    if everyone.Failure? {
      return InternalError(everyone.error);
    }
    var pledgeAmountByEmail := PledgeIndex(collectionRecords);
    var allDonations := FetchDonations(client, account);
    if allDonations.Failure? {
      return InternalError(allDonations.error);
    }
    var donationsByPersonId := GroupByPerson(allDonations.value);
    var donors := SelectDonors(store, donationsByPersonId, pledgeAmountByEmail, everyone.value);
    if donors.Failure? {
      return InternalError(donors.error);
    }
    var selected := donors.value;
    var sorted := new Donor[|selected|](i requires 0 <= i < |selected| => selected[i]);
    assert sorted[..] == selected;
    SortByLastName(sorted);
    response := Ok(OverviewOf(campaign, sorted[..]));
  }
}
