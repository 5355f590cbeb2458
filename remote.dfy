/**
 * The two collaborators the core talks to, as objects that answer from fixed
 * data and record every call they receive in a ghost log:
 *  - `Client`, the fundraising platform's API as far as the core uses it
 *    (two paginated lists and two create operations);
 *  - `AdjustmentStore`, the store of per-donor side-program credits.
 * What the platform or the store answers is given by `const` fields: a
 * paginated list is a fixed sequence served in offset/limit slices, with an
 * `outage` function naming the offsets at which a request fails; a write's
 * reply is a function of what is written.
 */
module Remote {
  import opened Results
  import opened Domain

  function Min(a: int, b: int): int {
    if a <= b then a else b
  }

  /** One paginated list on the platform. */
  datatype Listing<T> = Listing(items: seq<T>, outage: nat -> Option<string>) {

    /** The reply to a request for `limit` items starting at `offset`. */
    function Page(offset: nat, limit: nat): (r: Result<seq<T>, string>)
      ensures r.Failure? <==> outage(offset).Some?
      ensures r.Success? ==> |r.value| <= limit
      ensures r.Success? ==> r.value == items[Min(offset, |items|)..Min(offset + limit, |items|)]
    {
      match outage(offset)
      case Some(e) => Failure(e)
      case None =>
        if offset >= |items| then Success([])
        else Success(items[offset..Min(offset + limit, |items|)])
    }
  }

  /** A request the client receives. */
  datatype Call =
    | PeopleRequest(account: Account, offset: nat, limit: nat)
    | DonationsRequest(account: Account, offset: nat, limit: nat)
    | SavePersonRequest(person: Person)
    | SaveDonationRequest(donation: Donation)

  const MissingAccount: string := "missing account information"

  class Client {
    const people: Account -> Listing<Person>
    const donations: Account -> Listing<Donation>
    /** What the platform answers when asked to create a person or a donation that names an account. */
    const personReply: Person -> Result<Person, string>
    const donationReply: Donation -> Result<Donation, string>
    ghost var calls: seq<Call>

    constructor (people: Account -> Listing<Person>, donations: Account -> Listing<Donation>,
                 personReply: Person -> Result<Person, string>, donationReply: Donation -> Result<Donation, string>)
      ensures this.people == people && this.donations == donations
      ensures this.personReply == personReply && this.donationReply == donationReply
      ensures calls == []
    {
      this.people := people;
      this.donations := donations;
      this.personReply := personReply;
      this.donationReply := donationReply;
      calls := [];
    }

    /**
     * The outcome of creating `person`: the client itself refuses a person
     * without an account, before any request is made.
     */
    function SavePersonOutcome(person: Person): (r: Result<Person, string>)
      ensures (|person.accounts| == 0 || person.accounts[0].id == []) ==> r == Failure(MissingAccount)
      ensures |person.accounts| > 0 && person.accounts[0].id != [] ==> r == personReply(person)
    {
      if |person.accounts| == 0 || person.accounts[0].id == [] then Failure(MissingAccount)
      else personReply(person)
    }

    /**
     * The outcome of creating `donation`: the client itself refuses a donation
     * without an account, before any request is made.
     */
    function SaveDonationOutcome(donation: Donation): (r: Result<Donation, string>)
      ensures donation.account.id == [] ==> r == Failure(MissingAccount)
      ensures donation.account.id != [] ==> r == donationReply(donation)
    {
      if donation.account.id == [] then Failure(MissingAccount) else donationReply(donation)
    }

    method ListPeople(account: Account, offset: nat, limit: nat) returns (r: Result<seq<Person>, string>)
      modifies this
      ensures calls == old(calls) + [PeopleRequest(account, offset, limit)]
      ensures r == people(account).Page(offset, limit)
    {
      r := people(account).Page(offset, limit);
      calls := calls + [PeopleRequest(account, offset, limit)];
    }

    method ListDonations(account: Account, offset: nat, limit: nat) returns (r: Result<seq<Donation>, string>)
      modifies this
      ensures calls == old(calls) + [DonationsRequest(account, offset, limit)]
      ensures r == donations(account).Page(offset, limit)
    {
      r := donations(account).Page(offset, limit);
      calls := calls + [DonationsRequest(account, offset, limit)];
    }

    method SavePerson(person: Person) returns (r: Result<Person, string>)
      modifies this
      ensures calls == old(calls) + [SavePersonRequest(person)]
      ensures r == SavePersonOutcome(person)
    {
      r := SavePersonOutcome(person);
      calls := calls + [SavePersonRequest(person)];
    }

    method SaveDonation(donation: Donation) returns (r: Result<Donation, string>)
      modifies this
      ensures calls == old(calls) + [SaveDonationRequest(donation)]
      ensures r == SaveDonationOutcome(donation)
    {
      r := SaveDonationOutcome(donation);
      calls := calls + [SaveDonationRequest(donation)];
    }
  }

  /** A request the adjustment store receives. */
  datatype StoreCall =
    | GetRequest(person: Person)
    | SaveRequest(person: Person, adjustments: seq<Adjustment>)

  class AdjustmentStore {
    /** What the store answers when asked for a person's adjustments. */
    const stored: Person -> Result<seq<Adjustment>, string>
    /** The error, if any, the store reports when asked to save adjustments. */
    const saveReply: (Person, seq<Adjustment>) -> Option<string>
    ghost var calls: seq<StoreCall>

    constructor (stored: Person -> Result<seq<Adjustment>, string>, saveReply: (Person, seq<Adjustment>) -> Option<string>)
      ensures this.stored == stored && this.saveReply == saveReply
      ensures calls == []
    {
      this.stored := stored;
      this.saveReply := saveReply;
      calls := [];
    }

    method GetAdjustmentsByPerson(person: Person) returns (r: Result<seq<Adjustment>, string>)
      modifies this
      ensures calls == old(calls) + [GetRequest(person)]
      ensures r == stored(person)
    {
      r := stored(person);
      calls := calls + [GetRequest(person)];
    }

    method SaveAdjustments(person: Person, adjustments: seq<Adjustment>) returns (err: Option<string>)
      modifies this
      ensures calls == old(calls) + [SaveRequest(person, adjustments)]
      ensures err == saveReply(person, adjustments)
    {
      err := saveReply(person, adjustments);
      calls := calls + [SaveRequest(person, adjustments)];
    }
  }
}
