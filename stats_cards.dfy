/** The statistics cards: the number of vehicles shown as active and the
    number with each of the three status strings. */
module StatsCards {
  import opened Seqs

  /** A tracked vehicle; only its status string matters here. */
  datatype Vehicle = Vehicle(status: string)

  const OnTime: string := "on-time"
  const Late: string := "late"
  const OffRoute: string := "off-route"

  /** `vehicles.filter(v => v.status === status).length`. */
  function CountStatus(vehicles: seq<Vehicle>, status: string): (r: nat)
    ensures r <= |vehicles|
  {
    |Filter(vehicles, (v: Vehicle) => v.status == status)|
  }

  /** The count steps through the vehicles one at a time. */
  lemma CountStatusUnfold(vehicles: seq<Vehicle>, status: string)
    requires vehicles != []
    ensures CountStatus(vehicles, status) ==
      (if vehicles[0].status == status then 1 else 0) + CountStatus(vehicles[1..], status)
  {
    assert vehicles == [vehicles[0]] + vehicles[1..];
  }

  /** The status strings, in order. */
  function Statuses(vehicles: seq<Vehicle>): (r: seq<string>)
    ensures |r| == |vehicles| && forall i :: 0 <= i < |vehicles| ==> r[i] == vehicles[i].status
  {
    seq(|vehicles|, i requires 0 <= i < |vehicles| => vehicles[i].status)
  }

  /** The count is how many times the status occurs among the statuses. */
  lemma {:induction false} CountStatusIsOccurrences(vehicles: seq<Vehicle>, status: string)
    ensures CountStatus(vehicles, status) == multiset(Statuses(vehicles))[status]
  {
    if vehicles == [] {
      assert Statuses(vehicles) == [];
    } else {
      CountStatusUnfold(vehicles, status);
      CountStatusIsOccurrences(vehicles[1..], status);
      assert Statuses(vehicles) == [vehicles[0].status] + Statuses(vehicles[1..]);
    }
  }

  /** Three distinct statuses never count more vehicles than there are. */
  lemma {:induction false} DistinctCountsBounded(vehicles: seq<Vehicle>, a: string, b: string, c: string)
    requires a != b && b != c && a != c
    ensures CountStatus(vehicles, a) + CountStatus(vehicles, b) + CountStatus(vehicles, c) <= |vehicles|
  {
    if vehicles != [] {
      CountStatusUnfold(vehicles, a);
      CountStatusUnfold(vehicles, b);
      CountStatusUnfold(vehicles, c);
      DistinctCountsBounded(vehicles[1..], a, b, c);
    }
  }

  /** The four figures on the cards. */
  datatype Stats = Stats(active: nat, onTime: nat, late: nat, offRoute: nat)

  /** The cards' figures: the vehicle count, and the on-time, late and
      off-route counts, which together never exceed it. */
  function Summarize(vehicles: seq<Vehicle>): (r: Stats)
    ensures r.active == |vehicles|
    ensures r.onTime == CountStatus(vehicles, OnTime)
    ensures r.late == CountStatus(vehicles, Late)
    ensures r.offRoute == CountStatus(vehicles, OffRoute)
    ensures r.onTime + r.late + r.offRoute <= r.active
  {
    DistinctCountsBounded(vehicles, OnTime, Late, OffRoute);
    Stats(|vehicles|, CountStatus(vehicles, OnTime), CountStatus(vehicles, Late), CountStatus(vehicles, OffRoute))
  }
}
