/** Whether a driver may be given work: a rule that counts approved papers,
    against the rule it stands for. */
module Verification {
  import opened Prelude
  import opened Documents

  /** A row of driver_documents or vehicle_documents. */
  datatype Paper = Paper(holder: nat, doc: DocType, review: Review, expires: Option<int>)

  datatype Vehicle = Vehicle(id: nat, driver: Option<nat>, active: bool)

  datatype Office = Office(driverPapers: seq<Paper>, vehiclePapers: seq<Paper>, vehicles: seq<Vehicle>, now: int)

  const DRIVER_TYPES: set<DocType> := {NationalId, DriversLicense}
  const VEHICLE_TYPES: set<DocType> := {VehicleRegistration, InsuranceCertificate, RoadworthinessCertificate}

  predicate Good(p: Paper, now: int) {
    p.review.Approved? && (p.expires.None? || p.expires.value > now)
  }

  /** Papers of the driver in person. */
  function OwnPapers(papers: seq<Paper>, driver: nat): seq<Paper> {
    if papers == [] then []
    else
      OwnPapers(papers[..|papers| - 1], driver)
      + (if papers[|papers| - 1].holder == driver then [papers[|papers| - 1]] else [])
  }

  /** The papers of every active vehicle of the driver, as a join lists them. */
  function JoinedPapers(papers: seq<Paper>, vehicles: seq<Vehicle>, driver: nat): seq<Paper> {
    if vehicles == [] then []
    else
      var v := vehicles[|vehicles| - 1];
      JoinedPapers(papers, vehicles[..|vehicles| - 1], driver)
      + (if v.driver == Some(driver) && v.active then OwnPapers(papers, v.id) else [])
  }

  /** `COUNT(*)` of the rows of these types that are approved and unexpired. */
  function CountGood(papers: seq<Paper>, types: set<DocType>, now: int): nat {
    if papers == [] then 0
    else
      var p := papers[|papers| - 1];
      CountGood(papers[..|papers| - 1], types, now) + (if p.doc in types && Good(p, now) then 1 else 0)
  }

  /** The rule of the assignment gate and the user list. */
  predicate CountedVerified(o: Office, driver: nat) {
    && CountGood(OwnPapers(o.driverPapers, driver), DRIVER_TYPES, o.now) == |DRIVER_TYPES|
    && CountGood(JoinedPapers(o.vehiclePapers, o.vehicles, driver), VEHICLE_TYPES, o.now) == |VEHICLE_TYPES|
  }

  predicate HasGood(papers: seq<Paper>, t: DocType, now: int) {
    exists i :: 0 <= i < |papers| && papers[i].doc == t && Good(papers[i], now)
  }

  /** What verified means: every required document is there, approved and in date. */
  predicate EveryPaperGood(o: Office, driver: nat) {
    && (forall t :: t in DRIVER_TYPES ==> HasGood(OwnPapers(o.driverPapers, driver), t, o.now))
    && (forall t :: t in VEHICLE_TYPES ==> HasGood(JoinedPapers(o.vehiclePapers, o.vehicles, driver), t, o.now))
  }

  /** The row a lookup by type is left with: the last of that type. */
  function LastOf(papers: seq<Paper>, t: DocType): Option<Paper> {
    if papers == [] then None
    else if papers[|papers| - 1].doc == t then Some(papers[|papers| - 1])
    else LastOf(papers[..|papers| - 1], t)
  }

  predicate LastGood(papers: seq<Paper>, t: DocType, now: int) {
    var p := LastOf(papers, t);
    p.Some? && p.value.review.Approved? && !(p.value.expires.Some? && p.value.expires.value <= now)
  }

  /** The rule of the driver's own checklist. */
  predicate ChecklistVerified(o: Office, driver: nat) {
    && (forall t :: t in DRIVER_TYPES ==> LastGood(OwnPapers(o.driverPapers, driver), t, o.now))
    && (forall t :: t in VEHICLE_TYPES ==> LastGood(JoinedPapers(o.vehiclePapers, o.vehicles, driver), t, o.now))
  }

  predicate OwnTypes(papers: seq<Paper>) {
    forall i, j :: 0 <= i < j < |papers| ==> papers[i].doc != papers[j].doc
  }

  /** (holder, type) is unique in both tables. */
  predicate KeysUnique(papers: seq<Paper>) {
    forall i, j :: 0 <= i < j < |papers| ==> !(papers[i].holder == papers[j].holder && papers[i].doc == papers[j].doc)
  }

  /** Vehicles with this driver that are active. */
  function ActiveVehicles(vehicles: seq<Vehicle>, driver: nat): nat {
    if vehicles == [] then 0
    else
      var v := vehicles[|vehicles| - 1];
      ActiveVehicles(vehicles[..|vehicles| - 1], driver) + (if v.driver == Some(driver) && v.active then 1 else 0)
  }

  // ----- counting distinct types ---------------------------------------------------

  function GoodTypes(papers: seq<Paper>, types: set<DocType>, now: int): set<DocType> {
    set i | 0 <= i < |papers| && papers[i].doc in types && Good(papers[i], now) :: papers[i].doc
  }

  lemma GoodTypesOfOneMore(init: seq<Paper>, p: Paper, types: set<DocType>, now: int)
    ensures GoodTypes(init + [p], types, now)
            == GoodTypes(init, types, now) + (if p.doc in types && Good(p, now) then {p.doc} else {})
  {
    var all := init + [p];
    forall t ensures t in GoodTypes(all, types, now) <==>
                       t in GoodTypes(init, types, now) || (t == p.doc && p.doc in types && Good(p, now))
    {
      if t in GoodTypes(init, types, now) {
        var i :| 0 <= i < |init| && init[i].doc in types && Good(init[i], now) && init[i].doc == t;
        assert all[i] == init[i];
      }
      if t == p.doc && p.doc in types && Good(p, now) { assert all[|init|] == p; }
    }
  }

  lemma {:induction false} CountIsSize(papers: seq<Paper>, types: set<DocType>, now: int)
    requires OwnTypes(papers)
    ensures CountGood(papers, types, now) == |GoodTypes(papers, types, now)|
  {
    if papers == [] {
      assert GoodTypes(papers, types, now) == {};
    } else {
      var init, p := papers[..|papers| - 1], papers[|papers| - 1];
      CountIsSize(init, types, now);
      assert papers == init + [p];
      GoodTypesOfOneMore(init, p, types, now);
      assert p.doc !in GoodTypes(init, types, now);
    }
  }

  lemma SubsetSize(a: set<DocType>, b: set<DocType>)
    requires a <= b
    ensures |a| <= |b| && (|a| == |b| <==> a == b)
  {
    assert |b - a| == |b| - |a|;
  }

  /** With one row per type, counting the good ones up to the number of required
      types is having a good one of each. */
  lemma CountingIsHavingEach(papers: seq<Paper>, types: set<DocType>, now: int)
    requires OwnTypes(papers)
    ensures CountGood(papers, types, now) == |types| <==> forall t :: t in types ==> HasGood(papers, t, now)
  {
    CountIsSize(papers, types, now);
    SubsetSize(GoodTypes(papers, types, now), types);
    forall t | t in types ensures t in GoodTypes(papers, types, now) <==> HasGood(papers, t, now) {}
  }

  lemma {:induction false} LastOfIsTheOne(papers: seq<Paper>, t: DocType, now: int)
    requires OwnTypes(papers)
    ensures LastGood(papers, t, now) <==> HasGood(papers, t, now)
    ensures LastOf(papers, t).None? <==> forall i :: 0 <= i < |papers| ==> papers[i].doc != t
  {
    if papers != [] {
      var init, p := papers[..|papers| - 1], papers[|papers| - 1];
      LastOfIsTheOne(init, t, now);
      assert forall i :: 0 <= i < |init| ==> papers[i] == init[i];
      if p.doc == t {
        assert papers[|papers| - 1] == p;
      } else if HasGood(papers, t, now) {
        var i :| 0 <= i < |papers| && papers[i].doc == t && Good(papers[i], now);
        assert init[i] == papers[i];
      }
    }
  }

  lemma {:induction false} OwnPapersOwnTypes(papers: seq<Paper>, holder: nat)
    requires KeysUnique(papers)
    ensures OwnTypes(OwnPapers(papers, holder))
    ensures forall p :: p in OwnPapers(papers, holder) ==> p in papers && p.holder == holder
  {
    if papers != [] {
      var init, last := papers[..|papers| - 1], papers[|papers| - 1];
      OwnPapersOwnTypes(init, holder);
      var own := OwnPapers(init, holder);
      forall i | 0 <= i < |own| && last.holder == holder ensures own[i].doc != last.doc {
        assert own[i] in own;
        var k :| 0 <= k < |init| && init[k] == own[i];
        assert papers[k] == own[i];
      }
    }
  }

  lemma {:induction false} OneVehicleOwnTypes(papers: seq<Paper>, vehicles: seq<Vehicle>, driver: nat)
    requires KeysUnique(papers) && ActiveVehicles(vehicles, driver) <= 1
    ensures OwnTypes(JoinedPapers(papers, vehicles, driver))
    ensures ActiveVehicles(vehicles, driver) == 0 ==> JoinedPapers(papers, vehicles, driver) == []
  {
    if vehicles != [] {
      var init, v := vehicles[..|vehicles| - 1], vehicles[|vehicles| - 1];
      OneVehicleOwnTypes(papers, init, driver);
      if v.driver == Some(driver) && v.active {
        OwnPapersOwnTypes(papers, v.id);
        assert JoinedPapers(papers, vehicles, driver) == OwnPapers(papers, v.id);
      } else {
        assert JoinedPapers(papers, vehicles, driver) == JoinedPapers(papers, init, driver);
      }
    }
  }

  /** With unique keys and at most one active vehicle, the three rules agree: the
      count, every document good, and the driver's own checklist. */
  lemma ThreeRulesAgree(o: Office, driver: nat)
    requires KeysUnique(o.driverPapers) && KeysUnique(o.vehiclePapers) && ActiveVehicles(o.vehicles, driver) <= 1
    ensures CountedVerified(o, driver) <==> EveryPaperGood(o, driver)
    ensures ChecklistVerified(o, driver) <==> EveryPaperGood(o, driver)
  {
    var own, joined := OwnPapers(o.driverPapers, driver), JoinedPapers(o.vehiclePapers, o.vehicles, driver);
    OwnPapersOwnTypes(o.driverPapers, driver);
    OneVehicleOwnTypes(o.vehiclePapers, o.vehicles, driver);
    CountingIsHavingEach(own, DRIVER_TYPES, o.now);
    CountingIsHavingEach(joined, VEHICLE_TYPES, o.now);
    forall t ensures LastGood(own, t, o.now) <==> HasGood(own, t, o.now) { LastOfIsTheOne(own, t, o.now); }
    forall t ensures LastGood(joined, t, o.now) <==> HasGood(joined, t, o.now) { LastOfIsTheOne(joined, t, o.now); }
  }

  // ----- what verified means, row by row -------------------------------------------

  /** An approved paper of this kind that has not run out. */
  predicate InForce(p: Paper, t: DocType, now: int) {
    p.doc == t && p.review == Approved && (p.expires == None || now < p.expires.value)
  }

  predicate Shows(papers: seq<Paper>, holder: nat, t: DocType, now: int) {
    exists p :: p in papers && p.holder == holder && InForce(p, t, now)
  }

  lemma {:induction false} OwnPapersAre(papers: seq<Paper>, holder: nat)
    ensures forall p :: p in OwnPapers(papers, holder) <==> p in papers && p.holder == holder
  {
    if papers != [] {
      OwnPapersAre(papers[..|papers| - 1], holder);
      assert papers == papers[..|papers| - 1] + [papers[|papers| - 1]];
    }
  }

  lemma HasGoodIs(papers: seq<Paper>, t: DocType, now: int)
    ensures HasGood(papers, t, now) <==> exists p :: p in papers && InForce(p, t, now)
  {
    if HasGood(papers, t, now) {
      var i :| 0 <= i < |papers| && papers[i].doc == t && Good(papers[i], now);
      assert papers[i] in papers && InForce(papers[i], t, now);
    }
    if p :| p in papers && InForce(p, t, now) {
      var i :| 0 <= i < |papers| && papers[i] == p;
      assert Good(papers[i], now);
    }
  }

  lemma ShowsIsHasGood(papers: seq<Paper>, holder: nat, t: DocType, now: int)
    ensures HasGood(OwnPapers(papers, holder), t, now) <==> Shows(papers, holder, t, now)
  {
    HasGoodIs(OwnPapers(papers, holder), t, now);
    OwnPapersAre(papers, holder);
  }

  /** One of the driver's active vehicles shows the paper. */
  predicate AVehicleShows(papers: seq<Paper>, vehicles: seq<Vehicle>, driver: nat, t: DocType, now: int) {
    exists v :: v in vehicles && v.driver == Some(driver) && v.active && Shows(papers, v.id, t, now)
  }

  lemma {:induction false} JoinedShow(papers: seq<Paper>, vehicles: seq<Vehicle>, driver: nat, t: DocType, now: int)
    ensures HasGood(JoinedPapers(papers, vehicles, driver), t, now) <==> AVehicleShows(papers, vehicles, driver, t, now)
  {
    if vehicles != [] {
      var init, v := vehicles[..|vehicles| - 1], vehicles[|vehicles| - 1];
      JoinedShow(papers, init, driver, t, now);
      assert vehicles == init + [v];
      ShowsIsHasGood(papers, v.id, t, now);
      HasGoodIs(JoinedPapers(papers, init, driver), t, now);
      HasGoodIs(OwnPapers(papers, v.id), t, now);
      HasGoodIs(JoinedPapers(papers, vehicles, driver), t, now);
      if AVehicleShows(papers, vehicles, driver, t, now) {
        var w :| w in vehicles && w.driver == Some(driver) && w.active && Shows(papers, w.id, t, now);
        assert w in init || w == v;
      }
      if AVehicleShows(papers, init, driver, t, now) {
        var w :| w in init && w.driver == Some(driver) && w.active && Shows(papers, w.id, t, now);
        assert w in vehicles;
      }
    }
  }

  /** The driver's identity card and licence, and on some active vehicle of theirs
      each of the registration, the insurance and the roadworthiness certificate. */
  lemma VerifiedMeans(o: Office, driver: nat)
    ensures EveryPaperGood(o, driver) <==>
              && Shows(o.driverPapers, driver, NationalId, o.now)
              && Shows(o.driverPapers, driver, DriversLicense, o.now)
              && AVehicleShows(o.vehiclePapers, o.vehicles, driver, VehicleRegistration, o.now)
              && AVehicleShows(o.vehiclePapers, o.vehicles, driver, InsuranceCertificate, o.now)
              && AVehicleShows(o.vehiclePapers, o.vehicles, driver, RoadworthinessCertificate, o.now)
  {
    forall t ensures HasGood(OwnPapers(o.driverPapers, driver), t, o.now) <==> Shows(o.driverPapers, driver, t, o.now) {
      ShowsIsHasGood(o.driverPapers, driver, t, o.now);
    }
    forall t
      ensures HasGood(JoinedPapers(o.vehiclePapers, o.vehicles, driver), t, o.now) <==>
                AVehicleShows(o.vehiclePapers, o.vehicles, driver, t, o.now)
    {
      JoinedShow(o.vehiclePapers, o.vehicles, driver, t, o.now);
    }
  }

  // ----- two active vehicles ----------------------------------------------------------

  lemma {:induction false} CountOfSum(a: seq<Paper>, b: seq<Paper>, types: set<DocType>, now: int)
    ensures CountGood(a + b, types, now) == CountGood(a, types, now) + CountGood(b, types, now)
  {
    if b == [] {
      assert a + b == a;
    } else {
      assert (a + b)[..|a + b| - 1] == a + b[..|b| - 1];
      CountOfSum(a, b[..|b| - 1], types, now);
    }
  }

  lemma {:induction false} CountOfTypes(papers: seq<Paper>, a: set<DocType>, b: set<DocType>, now: int)
    requires a !! b
    ensures CountGood(papers, a + b, now) == CountGood(papers, a, now) + CountGood(papers, b, now)
  {
    if papers != [] { CountOfTypes(papers[..|papers| - 1], a, b, now); }
  }

  lemma CountOfOneType(papers: seq<Paper>, t: DocType, now: int)
    requires OwnTypes(papers)
    ensures CountGood(papers, {t}, now) == if HasGood(papers, t, now) then 1 else 0
  {
    CountingIsHavingEach(papers, {t}, now);
    CountIsSize(papers, {t}, now);
    SubsetSize(GoodTypes(papers, {t}, now), {t});
    assert t in {t};
  }

  /** How many of the driver's active vehicles have a good document of this type. */
  function Holders(papers: seq<Paper>, vehicles: seq<Vehicle>, driver: nat, t: DocType, now: int): nat {
    if vehicles == [] then 0
    else
      var v := vehicles[|vehicles| - 1];
      Holders(papers, vehicles[..|vehicles| - 1], driver, t, now)
      + (if v.driver == Some(driver) && v.active && HasGood(OwnPapers(papers, v.id), t, now) then 1 else 0)
  }

  lemma {:induction false} CountOfHolders(papers: seq<Paper>, vehicles: seq<Vehicle>, driver: nat, t: DocType, now: int)
    requires KeysUnique(papers)
    ensures CountGood(JoinedPapers(papers, vehicles, driver), {t}, now) == Holders(papers, vehicles, driver, t, now)
  {
    if vehicles != [] {
      var v := vehicles[|vehicles| - 1];
      CountOfHolders(papers, vehicles[..|vehicles| - 1], driver, t, now);
      var own: seq<Paper> := if v.driver == Some(driver) && v.active then OwnPapers(papers, v.id) else [];
      CountOfSum(JoinedPapers(papers, vehicles[..|vehicles| - 1], driver), own, {t}, now);
      OwnPapersOwnTypes(papers, v.id);
      CountOfOneType(OwnPapers(papers, v.id), t, now);
    }
  }

  lemma {:induction false} SomeGoodIsCounted(papers: seq<Paper>, t: DocType, now: int)
    ensures CountGood(papers, {t}, now) > 0 <==> HasGood(papers, t, now)
  {
    if papers != [] {
      var init, last := papers[..|papers| - 1], |papers| - 1;
      SomeGoodIsCounted(init, t, now);
      assert forall i :: 0 <= i < last ==> papers[i] == init[i];
      if HasGood(init, t, now) {
        var i :| 0 <= i < |init| && init[i].doc == t && Good(init[i], now);
        assert papers[i].doc == t;
      }
    }
  }

  predicate OwnPapersGood(o: Office, driver: nat) {
    forall t :: t in DRIVER_TYPES ==> HasGood(OwnPapers(o.driverPapers, driver), t, o.now)
  }

  /** The count and what it stands for, whatever vehicles the driver has.  The count
      pools the papers of all active ones: it wants three good ones in all, where
      being verified takes one of each type. */
  lemma PooledCountExactly(o: Office, driver: nat)
    requires KeysUnique(o.driverPapers) && KeysUnique(o.vehiclePapers)
    ensures var r := Holders(o.vehiclePapers, o.vehicles, driver, VehicleRegistration, o.now);
            var i := Holders(o.vehiclePapers, o.vehicles, driver, InsuranceCertificate, o.now);
            var w := Holders(o.vehiclePapers, o.vehicles, driver, RoadworthinessCertificate, o.now);
            && (CountedVerified(o, driver) <==> OwnPapersGood(o, driver) && r + i + w == 3)
            && (EveryPaperGood(o, driver) <==> OwnPapersGood(o, driver) && r > 0 && i > 0 && w > 0)
  {
    var own, joined := OwnPapers(o.driverPapers, driver), JoinedPapers(o.vehiclePapers, o.vehicles, driver);
    OwnPapersOwnTypes(o.driverPapers, driver);
    CountingIsHavingEach(own, DRIVER_TYPES, o.now);
    CountOfTypes(joined, {VehicleRegistration}, {InsuranceCertificate, RoadworthinessCertificate}, o.now);
    CountOfTypes(joined, {InsuranceCertificate}, {RoadworthinessCertificate}, o.now);
    assert {VehicleRegistration} + {InsuranceCertificate, RoadworthinessCertificate} == VEHICLE_TYPES;
    assert {InsuranceCertificate} + {RoadworthinessCertificate} == {InsuranceCertificate, RoadworthinessCertificate};
    forall t ensures HasGood(joined, t, o.now) <==> Holders(o.vehiclePapers, o.vehicles, driver, t, o.now) > 0 {
      CountOfHolders(o.vehiclePapers, o.vehicles, driver, t, o.now);
      SomeGoodIsCounted(joined, t, o.now);
    }
    CountOfHolders(o.vehiclePapers, o.vehicles, driver, VehicleRegistration, o.now);
    CountOfHolders(o.vehiclePapers, o.vehicles, driver, InsuranceCertificate, o.now);
    CountOfHolders(o.vehiclePapers, o.vehicles, driver, RoadworthinessCertificate, o.now);
  }

  /** So where both hold, every type is good on exactly one active vehicle. */
  lemma CountIsRightExactly(o: Office, driver: nat)
    requires KeysUnique(o.driverPapers) && KeysUnique(o.vehiclePapers)
    ensures CountedVerified(o, driver) && EveryPaperGood(o, driver) <==>
              OwnPapersGood(o, driver)
              && forall t :: t in VEHICLE_TYPES ==> Holders(o.vehiclePapers, o.vehicles, driver, t, o.now) == 1
  {
    PooledCountExactly(o, driver);
  }

  function VehicleTypesGood(o: Office, vehicle: nat): set<DocType> {
    GoodTypes(OwnPapers(o.vehiclePapers, vehicle), VEHICLE_TYPES, o.now)
  }

  predicate InBoth(o: Office, driver: nat, v: nat, w: nat) {
    o.vehicles == [Vehicle(v, Some(driver), true), Vehicle(w, Some(driver), true)]
  }

  /** The papers of two active vehicles are counted in one pool. */
  lemma TwoVehiclesPoolTheirPapers(o: Office, driver: nat, v: nat, w: nat)
    requires KeysUnique(o.vehiclePapers) && InBoth(o, driver, v, w)
    ensures CountGood(JoinedPapers(o.vehiclePapers, o.vehicles, driver), VEHICLE_TYPES, o.now)
            == |VehicleTypesGood(o, v)| + |VehicleTypesGood(o, w)|
    ensures JoinedPapers(o.vehiclePapers, o.vehicles, driver)
              == OwnPapers(o.vehiclePapers, v) + OwnPapers(o.vehiclePapers, w)
  {
    var papers := o.vehiclePapers;
    assert o.vehicles[..1] == [o.vehicles[0]] && o.vehicles[..1][..0] == [];
    assert JoinedPapers(papers, o.vehicles[..1], driver) == [] + OwnPapers(papers, v);
    assert JoinedPapers(papers, o.vehicles, driver) == OwnPapers(papers, v) + OwnPapers(papers, w);
    CountOfSum(OwnPapers(papers, v), OwnPapers(papers, w), VEHICLE_TYPES, o.now);
    OwnPapersOwnTypes(papers, v);
    OwnPapersOwnTypes(papers, w);
    CountIsSize(OwnPapers(papers, v), VEHICLE_TYPES, o.now);
    CountIsSize(OwnPapers(papers, w), VEHICLE_TYPES, o.now);
  }

  /** So a driver of two roadworthy vehicles is never verified... */
  lemma TwoGoodVehiclesNeverVerify(o: Office, driver: nat, v: nat, w: nat)
    requires KeysUnique(o.vehiclePapers) && InBoth(o, driver, v, w)
    requires VehicleTypesGood(o, v) == VEHICLE_TYPES && VehicleTypesGood(o, w) == VEHICLE_TYPES
    ensures !CountedVerified(o, driver)
  {
    TwoVehiclesPoolTheirPapers(o, driver, v, w);
  }

  /** ...and one whose two vehicles both lack the same document can be. */
  lemma TwoLackingVehiclesVerify(o: Office, driver: nat, v: nat, w: nat)
    requires KeysUnique(o.driverPapers) && KeysUnique(o.vehiclePapers) && InBoth(o, driver, v, w)
    requires forall t :: t in DRIVER_TYPES ==> HasGood(OwnPapers(o.driverPapers, driver), t, o.now)
    requires VehicleTypesGood(o, w) < VehicleTypesGood(o, v) < VEHICLE_TYPES
    requires |VehicleTypesGood(o, v)| == 2 && |VehicleTypesGood(o, w)| == 1
    ensures CountedVerified(o, driver) && !EveryPaperGood(o, driver)
  {
    OwnPapersOwnTypes(o.driverPapers, driver);
    CountingIsHavingEach(OwnPapers(o.driverPapers, driver), DRIVER_TYPES, o.now);
    TwoVehiclesPoolTheirPapers(o, driver, v, w);
    var a, b := OwnPapers(o.vehiclePapers, v), OwnPapers(o.vehiclePapers, w);
    var t :| t in VEHICLE_TYPES && t !in VehicleTypesGood(o, v);
    var both: seq<Paper> := a + b;
    forall i | 0 <= i < |both| && both[i].doc == t ensures !Good(both[i], o.now) {
      if i < |a| { assert both[i] == a[i]; } else { assert both[i] == b[i - |a|]; }
    }
    assert !HasGood(both, t, o.now);
  }
}
