/**
 * The lookup tables the backfill and the overview handler build from what they
 * fetched: a map filled in list order, so that a later entry with the same key
 * replaces an earlier one, and donations grouped by the id of their person,
 * each group in list order.
 */
module Index {
  import opened Results
  import opened Text
  import opened Domain

  /** The map built by inserting `val(x)` under `key(x)` for every `x` of `xs` in order. */
  function LastWins<T, V>(xs: seq<T>, key: T -> string, val: T -> V): map<string, V> {
    if xs == [] then map[]
    else LastWins(xs[..|xs| - 1], key, val)[key(xs[|xs| - 1]) := val(xs[|xs| - 1])]
  }

  /**
   * A key is in the map exactly when some entry has it, and it maps to the
   * value of the LAST entry that has it.
   */
  lemma {:induction false} LastWinsLookup<T, V>(xs: seq<T>, key: T -> string, val: T -> V, k: string)
    ensures k in LastWins(xs, key, val) <==> exists i :: 0 <= i < |xs| && key(xs[i]) == k
    ensures k in LastWins(xs, key, val) ==>
      exists i :: 0 <= i < |xs| && key(xs[i]) == k && LastWins(xs, key, val)[k] == val(xs[i]) &&
        forall j :: i < j < |xs| ==> key(xs[j]) != k
    decreases |xs|
  {
    if xs != [] {
      var n := |xs| - 1;
      var front := xs[..n];
      LastWinsLookup(front, key, val, k);
      if key(xs[n]) != k {
        if k in LastWins(xs, key, val) {
          var i :| 0 <= i < |front| && key(front[i]) == k && LastWins(front, key, val)[k] == val(front[i]) &&
            forall j :: i < j < |front| ==> key(front[j]) != k;
          assert xs[i] == front[i];
          assert forall j :: i < j < |xs| ==> key(xs[j]) != k by {
            forall j | i < j < |xs| ensures key(xs[j]) != k {
              if j < n { assert xs[j] == front[j]; }
            }
          }
        }
        if exists i :: 0 <= i < |xs| && key(xs[i]) == k {
          var i :| 0 <= i < |xs| && key(xs[i]) == k;
          assert xs[i] == front[i];
        }
      }
    }
  }

  /** The key the backfill indexes people by: their email, lower-cased. */
  function EmailKey(p: Person): string {
    Lower(p.email)
  }

  function Itself<T>(x: T): T {
    x
  }

  /** The key the overview handler indexes pledges by: the record's email, lower-cased. */
  function RecordKey(c: CollectionRecord): string {
    Lower(c.email)
  }

  function Pledged(c: CollectionRecord): real {
    c.amountPledged
  }

  /**
   * A report email finds a person exactly when some person's email is the
   * same up to case, and the person found is one of those.
   */
  lemma EmailMatch(people: seq<Person>, email: string)
    ensures Lower(email) in LastWins(people, EmailKey, Itself) <==>
      exists p | p in people :: Lower(p.email) == Lower(email)
    ensures Lower(email) in LastWins(people, EmailKey, Itself) ==>
      var p := LastWins(people, EmailKey, Itself)[Lower(email)];
      p in people && Lower(p.email) == Lower(email)
  {
    LastWinsLookup(people, EmailKey, Itself, Lower(email));
    if exists p | p in people :: Lower(p.email) == Lower(email) {
      var p :| p in people && Lower(p.email) == Lower(email);
      var i :| 0 <= i < |people| && people[i] == p;
      assert EmailKey(people[i]) == Lower(email);
    }
  }

  /** "Jane.DOE@x.com" in the report finds the person registered as "jane.doe@x.com". */
  lemma EmailMatchExample(jane: Person)
    requires jane.email == "jane.doe@x.com"
    ensures Lower("Jane.DOE@x.com") in LastWins([jane], EmailKey, Itself)
  {
    assert Lower("Jane.DOE@x.com") == "jane.doe@x.com";
    assert Lower("jane.doe@x.com") == "jane.doe@x.com";
    EmailMatch([jane], "Jane.DOE@x.com");
  }

  /** Index people by lower-cased email; a later person with the same email replaces an earlier one. */
  method IndexByEmail(people: seq<Person>) returns (byEmail: map<string, Person>)
    ensures byEmail == LastWins(people, EmailKey, Itself)
  {
    byEmail := map[];
    for i := 0 to |people|
      invariant byEmail == LastWins(people[..i], EmailKey, Itself)
    {
      assert people[..i + 1][..i] == people[..i];
      byEmail := byEmail[Lower(people[i].email) := people[i]];
    }
    assert people[..|people|] == people;
  }

  /** Index pledged amounts by lower-cased email; a later record with the same email replaces an earlier one. */
  method PledgeIndex(records: seq<CollectionRecord>) returns (pledges: map<string, real>)
    ensures pledges == LastWins(records, RecordKey, Pledged)
  {
    pledges := map[];
    for i := 0 to |records|
      invariant pledges == LastWins(records[..i], RecordKey, Pledged)
    {
      assert records[..i + 1][..i] == records[..i];
      pledges := pledges[Lower(records[i].email) := records[i].amountPledged];
    }
    assert records[..|records|] == records;
  }

  /** Go's zero value on a missing key: a missing email has no pledge. */
  function PledgeOf(pledges: map<string, real>, email: string): (amount: real)
    ensures email !in pledges ==> amount == 0.0
    ensures email in pledges ==> amount == pledges[email]
  {
    if email in pledges then pledges[email] else 0.0
  }

  /**
   * The pledge the overview finds for a lower-cased email: that of the last
   * record with the email, or 0 when no record has it.
   */
  lemma PledgeLookup(records: seq<CollectionRecord>, k: string)
    ensures (forall i | 0 <= i < |records| :: RecordKey(records[i]) != k) ==>
      PledgeOf(LastWins(records, RecordKey, Pledged), k) == 0.0
    ensures (exists i | 0 <= i < |records| :: RecordKey(records[i]) == k) ==>
      exists i | 0 <= i < |records| ::
        && RecordKey(records[i]) == k
        && PledgeOf(LastWins(records, RecordKey, Pledged), k) == records[i].amountPledged
        && forall j | i < j < |records| :: RecordKey(records[j]) != k
  {
    LastWinsLookup(records, RecordKey, Pledged, k);
  }

  /**
   * The entries of `xs` filed under their key, each group in list order;
   * an entry whose key is `None` is not filed.
   */
  function Group<T>(xs: seq<T>, key: T -> Option<string>): map<string, seq<T>> {
    if xs == [] then map[]
    else
      var m := Group(xs[..|xs| - 1], key);
      var x := xs[|xs| - 1];
      match key(x)
      case None => m
      case Some(k) => m[k := GroupOf(m, k) + [x]]
  }

  /** A group, or nothing when the key has none (a missing key reads as Go's nil slice). */
  function GroupOf<T>(groups: map<string, seq<T>>, k: string): (g: seq<T>)
    ensures k !in groups ==> g == []
    ensures k in groups ==> g == groups[k]
  {
    if k in groups then groups[k] else []
  }

  /** The entries of `xs` whose key is `k`, in list order: the reference for one group. */
  function Having<T>(xs: seq<T>, key: T -> Option<string>, k: string): seq<T> {
    if xs == [] then []
    else Having(xs[..|xs| - 1], key, k) + (if key(xs[|xs| - 1]) == Some(k) then [xs[|xs| - 1]] else [])
  }

  /** `Having` keeps exactly the entries with the key, and no more entries than the list has. */
  lemma {:induction false} HavingMembers<T>(xs: seq<T>, key: T -> Option<string>, k: string)
    ensures forall x :: x in Having(xs, key, k) <==> x in xs && key(x) == Some(k)
    ensures |Having(xs, key, k)| <= |xs|
    decreases |xs|
  {
    if xs != [] {
      HavingMembers(xs[..|xs| - 1], key, k);
      assert xs == xs[..|xs| - 1] + [xs[|xs| - 1]];
    }
  }

  /**
   * The grouping has a key for exactly the keys some entry has; the group of
   * every key, present or not, is the entries with that key in list order,
   * and no group is empty.
   */
  lemma {:induction false} GroupSpec<T>(xs: seq<T>, key: T -> Option<string>, k: string)
    ensures k in Group(xs, key) <==> exists i :: 0 <= i < |xs| && key(xs[i]) == Some(k)
    ensures GroupOf(Group(xs, key), k) == Having(xs, key, k)
    ensures k in Group(xs, key) ==> Group(xs, key)[k] != []
    decreases |xs|
  {
    if xs != [] {
      var n := |xs| - 1;
      var front := xs[..n];
      GroupSpec(front, key, k);
      if key(xs[n]) != Some(k) {
        if exists i :: 0 <= i < |xs| && key(xs[i]) == Some(k) {
          var i :| 0 <= i < |xs| && key(xs[i]) == Some(k);
          assert front[i] == xs[i];
        }
      }
    }
  }

  /** The sum of the sizes of all groups. */
  ghost function Total<T>(groups: map<string, seq<T>>): nat
    decreases |groups.Keys|
  {
    if groups == map[] then 0
    else
      var k :| k in groups;
      |groups[k]| + Total(groups - {k})
  }

  lemma {:induction false} TotalRemove<T>(groups: map<string, seq<T>>, k: string)
    requires k in groups
    ensures Total(groups) == |groups[k]| + Total(groups - {k})
    decreases |groups.Keys|
  {
    var c :| c in groups && Total(groups) == |groups[c]| + Total(groups - {c});
    if c != k {
      assert groups - {c} - {k} == groups - {k} - {c};
      assert (groups - {c}).Keys < groups.Keys;
      assert (groups - {k}).Keys < groups.Keys;
      TotalRemove(groups - {c}, k);
      TotalRemove(groups - {k}, c);
    }
  }

  /** The person a donation belongs to: every donation is filed. */
  function PersonKey(d: Donation): Option<string> {
    Some(d.person.id)
  }

  /** Grouping donations by person loses none and duplicates none. */
  lemma {:induction false} GroupedTotal(ds: seq<Donation>)
    ensures Total(Group(ds, PersonKey)) == |ds|
    decreases |ds|
  {
    if ds != [] {
      var front := ds[..|ds| - 1];
      var m := Group(front, PersonKey);
      var id := ds[|ds| - 1].person.id;
      var g := GroupOf(m, id) + [ds[|ds| - 1]];
      GroupedTotal(front);
      var m' := m[id := g];
      TotalRemove(m', id);
      assert m' - {id} == m - {id};
      if id in m {
        TotalRemove(m, id);
      } else {
        assert m - {id} == m;
      }
    }
  }

  /** Group donations by person id, creating each group at its person's first donation. */
  method GroupByPerson(ds: seq<Donation>) returns (groups: map<string, seq<Donation>>)
    ensures groups == Group(ds, PersonKey)
  {
    groups := map[];
    for i := 0 to |ds|
      invariant groups == Group(ds[..i], PersonKey)
    {
      assert ds[..i + 1][..i] == ds[..i];
      var id := ds[i].person.id;
      if id !in groups {
        groups := groups[id := []];
      }
      groups := groups[id := groups[id] + [ds[i]]];
    }
    assert ds[..|ds|] == ds;
  }
}
