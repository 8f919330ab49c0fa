/** The in-memory report store of the Reporta server: the module-level array
    of records and the id counter, with the list and create handlers. */
module Server {
  import opened Reports

  class ReportStore {
    var reports: seq<Report>
    var nextId: int

    /** The abstract value of the store. */
    ghost function State(): StoreState
      reads this
    {
      StoreState(reports, nextId)
    }

    ghost predicate Valid()
      reads this
    {
      Reports.Valid(State())
    }

    /** Start-up: the two seed records and the counter at 3. */
    constructor (firstSeedDate: string, secondSeedDate: string)
      ensures Valid()
      ensures State() == Initial(firstSeedDate, secondSeedDate)
      ensures reports == Seeds(firstSeedDate, secondSeedDate) && nextId == FirstFreeId
    {
      reports := Seeds(firstSeedDate, secondSeedDate);
      nextId := FirstFreeId;
    }

    /** GET /api/reports: every record, in storage order. */
    method List() returns (all: seq<Report>)
      ensures all == reports
    {
      all := reports;
    }

    /** POST /api/reports at time `now`. */
    method Create(req: CreateRequest, now: string) returns (outcome: CreateOutcome)
      modifies this
      ensures old(Valid()) ==> Valid()
      ensures (State(), outcome) == Reports.Create(old(State()), req, now)
      ensures outcome.MissingFields? <==> !HasRequiredFields(req)
      ensures outcome.MissingFields? ==> reports == old(reports) && nextId == old(nextId)
      ensures outcome.Created? ==>
                && outcome.report == NewReport(old(nextId), req, now)
                && nextId == old(nextId) + 1
                && reports == [outcome.report] + old(reports)
      ensures outcome.Created? && old(Valid()) ==>
                forall i :: 0 <= i < |old(reports)| ==> old(reports)[i].id < outcome.report.id
    {
      ghost var before := State();
      if !HasRequiredFields(req) {
        return MissingFields;
      }
      var report := NewReport(nextId, req, now);
      nextId := nextId + 1;
      reports := [report] + reports;
      outcome := Created(report);
      if Reports.Valid(before) {
        CreatePreservesValid(before, req, now);
      }
    }
  }

  /** A sample session: a valid create, then one with an empty title, then a
      list, decided by the store's contracts alone. */
  method SampleSession(firstSeedDate: string, secondSeedDate: string, now: string)
  {
    var store := new ReportStore(firstSeedDate, secondSeedDate);
    var pothole := CreateRequest(Some("Pothole"), Some("deep"), Some("Main St"),
                                 Some("http://x/img.jpg"), None, None, None);
    var o1 := store.Create(pothole, now);
    assert o1.Created? && o1.report.id == 3 && o1.report.status == Pending;
    assert o1.report.category == DefaultCategory && o1.report.latitude == 0;
    var blank := CreateRequest(Some(""), Some("x"), Some("y"), Some("z"), None, None, None);
    var o2 := store.Create(blank, now);
    assert o2 == MissingFields;
    var all := store.List();
    assert all == [o1.report] + Seeds(firstSeedDate, secondSeedDate);
    assert store.nextId == 4;
  }
}
