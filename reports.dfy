/** The report record of the Reporta API and the pure rules of its two
    operations: which create requests are accepted, how a new record is built
    from a request, and what one create does to the store's state. The
    stateful store itself is the class Server.ReportStore. */
module Reports {

  datatype Option<+T> = None | Some(value: T)

  /** A latitude or longitude, in ten-thousandths of a degree. */
  type Coordinate = int

  /** One citizen report, as the API stores and returns it. */
  datatype Report = Report(
    id: int,
    title: string,
    summary: string,
    location: string,
    latitude: Coordinate,
    longitude: Coordinate,
    category: string,
    photoUrl: string,
    status: string,
    date: string)

  /** The JSON body of a create request; every field may be absent. */
  datatype CreateRequest = CreateRequest(
    title: Option<string>,
    summary: Option<string>,
    location: Option<string>,
    photoUrl: Option<string>,
    latitude: Option<Coordinate>,
    longitude: Option<Coordinate>,
    category: Option<string>)

  /** A create either answers 201 with the new record or 400 "missing fields". */
  datatype CreateOutcome = Created(report: Report) | MissingFields

  /** The module state of the server: the ordered records and the id counter. */
  datatype StoreState = StoreState(reports: seq<Report>, nextId: int)

  const Pending: string := "Pendiente"
  const InProgress: string := "En Progreso"
  const DefaultCategory: string := "General"
  const FirstFreeId: int := 3

  /** JavaScript truthiness of a text field: of the values a text field can
      take, exactly an absent field and "" are falsy. */
  function Truthy(field: Option<string>): (b: bool)
    ensures b <==> field != None && field != Some("")
  {
    field.Some? && field.value != ""
  }

  /** `field || fallback` on a text field. */
  function OrDefault(field: Option<string>, fallback: string): (r: string)
    ensures r == fallback || field == Some(r)
    ensures Truthy(field) ==> r == field.value
    ensures r != "" <==> Truthy(field) || fallback != ""
  {
    if Truthy(field) then field.value else fallback
  }

  /** `coordinate || 0`: on integers a present zero and an absent value both
      give zero, so the default is simply "absent means 0". */
  function CoordinateOrZero(field: Option<Coordinate>): (r: Coordinate)
    ensures r == if field.Some? then field.value else 0
  {
    if field.Some? && field.value != 0 then field.value else 0
  }

  /** The four fields of a create request that must be present. */
  function RequiredFields(req: CreateRequest): seq<Option<string>> {
    [req.title, req.summary, req.location, req.photoUrl]
  }

  /** The guard of the create handler: title, summary, location and photo URL
      must all be present and non-empty; one falsy field is enough to fail. */
  function HasRequiredFields(req: CreateRequest): (b: bool)
    ensures !b <==> exists f :: f in RequiredFields(req) && !Truthy(f)
  {
    Truthy(req.title) && Truthy(req.summary) && Truthy(req.location) && Truthy(req.photoUrl)
  }

  /** What every stored record satisfies: its text fields are non-empty and its
      status is one of the two the server ever stores. */
  predicate WellFormed(r: Report) {
    && r.title != "" && r.summary != "" && r.location != "" && r.photoUrl != ""
    && r.category != ""
    && (r.status == Pending || r.status == InProgress)
  }

  /** The record a valid request becomes, given the id it takes and the time. */
  function NewReport(id: int, req: CreateRequest, now: string): (r: Report)
    requires HasRequiredFields(req)
    ensures WellFormed(r)
    ensures r.id == id && r.status == Pending && r.date == now
    ensures Some(r.title) == req.title && Some(r.summary) == req.summary
    ensures Some(r.location) == req.location && Some(r.photoUrl) == req.photoUrl
    ensures r.category == if Truthy(req.category) then req.category.value else DefaultCategory
    ensures r.latitude == (if req.latitude.Some? then req.latitude.value else 0)
    ensures r.longitude == (if req.longitude.Some? then req.longitude.value else 0)
  {
    Report(
      id,
      req.title.value,
      req.summary.value,
      req.location.value,
      CoordinateOrZero(req.latitude),
      CoordinateOrZero(req.longitude),
      OrDefault(req.category, DefaultCategory),
      req.photoUrl.value,
      Pending,
      now)
  }

  /** The store invariant: the counter is positive, every id lies in
      [1, nextId), no two records share an id, and every record is well formed. */
  ghost predicate Valid(s: StoreState) {
    && 1 <= s.nextId
    && (forall i :: 0 <= i < |s.reports| ==> 1 <= s.reports[i].id < s.nextId)
    && (forall i :: 0 <= i < |s.reports| ==> WellFormed(s.reports[i]))
    && (forall i, j :: 0 <= i < j < |s.reports| ==> s.reports[i].id != s.reports[j].id)
  }

  /** The two records the server starts with; `new Date()` is evaluated once
      for each, so each takes its own timestamp. */
  function Seeds(firstDate: string, secondDate: string): (r: seq<Report>)
    ensures |r| == 2 && r[0].id == 1 && r[1].id == 2
    ensures r[0].status == Pending && r[1].status == InProgress
  {
    [ Report(1, "Bache Peligroso",
             "Se requiere reparación urgente en la calle principal.",
             "Av. Libertador, Sector 5 (Lat: -34.6037, Lon: -58.3816)",
             -346037, -583816, "Infraestructura",
             "https://via.placeholder.com/400x200/5095e0/FFFFFF?text=FOTO+BACHEP",
             Pending, firstDate),
      Report(2, "Lámpara Fundida",
             "La luminaria de la esquina lleva 3 días apagada, afecta la seguridad.",
             "Calle 10 esq. Mitre (Lat: -34.6137, Lon: -58.3916)",
             -346137, -583916, "Alumbrado",
             "https://via.placeholder.com/400x200/5095e0/FFFFFF?text=FOTO+ALUMBRADO",
             InProgress, secondDate) ]
  }

  /** The state at start-up: the two seeds and the counter at 3. */
  function Initial(firstDate: string, secondDate: string): (s: StoreState)
    ensures Valid(s)
    ensures s.nextId == FirstFreeId && |s.reports| == 2
  {
    StoreState(Seeds(firstDate, secondDate), FirstFreeId)
  }

  /** One create request against the state `s` at time `now`: the new state and
      the outcome. A rejected request changes nothing; an accepted one takes the
      counter as its id, advances the counter by one and puts the new record at
      the front. */
  function Create(s: StoreState, req: CreateRequest, now: string): (r: (StoreState, CreateOutcome))
    ensures r.1.MissingFields? <==> !HasRequiredFields(req)
    ensures r.1.MissingFields? ==> r.0 == s
    ensures r.1.Created? ==>
              && r.1.report == NewReport(s.nextId, req, now)
              && r.0.nextId == s.nextId + 1
              && r.0.reports == [r.1.report] + s.reports
  {
    if !HasRequiredFields(req) then
      (s, MissingFields)
    else
      var report := NewReport(s.nextId, req, now);
      (StoreState([report] + s.reports, s.nextId + 1), Created(report))
  }

  /** Every create keeps the store invariant, and an accepted record's id is
      larger than every id assigned before it. */
  lemma CreatePreservesValid(s: StoreState, req: CreateRequest, now: string)
    requires Valid(s)
    ensures Valid(Create(s, req, now).0)
    ensures Create(s, req, now).1.Created? ==>
              forall i :: 0 <= i < |s.reports| ==> s.reports[i].id < Create(s, req, now).1.report.id
  {
  }

  /** A create request together with the time it is handled. */
  datatype Submission = Submission(request: CreateRequest, at: string)

  /** The state after handling `subs` in order, starting from `s`. */
  function Replay(s: StoreState, subs: seq<Submission>): StoreState
    decreases |subs|
  {
    if subs == [] then s
    else Replay(Create(s, subs[0].request, subs[0].at).0, subs[1..])
  }

  /** How many of `subs` pass the required-field check. */
  function Accepted(subs: seq<Submission>): (n: nat)
    ensures n <= |subs|
  {
    if subs == [] then 0
    else (if HasRequiredFields(subs[0].request) then 1 else 0) + Accepted(subs[1..])
  }

  /** Any run of creates keeps the store invariant. */
  lemma {:induction false} ReplayPreservesValid(s: StoreState, subs: seq<Submission>)
    requires Valid(s)
    ensures Valid(Replay(s, subs))
    decreases |subs|
  {
    if subs != [] {
      CreatePreservesValid(s, subs[0].request, subs[0].at);
      ReplayPreservesValid(Create(s, subs[0].request, subs[0].at).0, subs[1..]);
    }
  }

  /** Each accepted request adds exactly one record and one to the counter;
      rejected requests add nothing; the records held before stay, in their
      order, behind the new ones. */
  lemma {:induction false} ReplayCounts(s: StoreState, subs: seq<Submission>)
    ensures |Replay(s, subs).reports| == |s.reports| + Accepted(subs)
    ensures Replay(s, subs).nextId == s.nextId + Accepted(subs)
    ensures Replay(s, subs).reports[Accepted(subs)..] == s.reports
    decreases |subs|
  {
    if subs != [] {
      var t := Create(s, subs[0].request, subs[0].at).0;
      ReplayCounts(t, subs[1..]);
      var k := Accepted(subs[1..]);
      var u := Replay(t, subs[1..]).reports;
      if HasRequiredFields(subs[0].request) {
        assert u[k..] == t.reports;
        assert u[k + 1..] == t.reports[1..];
      }
    }
  }

  /** A run of rejected requests changes nothing at all. */
  lemma {:induction false} ReplayRejectedUnchanged(s: StoreState, subs: seq<Submission>)
    requires forall i :: 0 <= i < |subs| ==> !HasRequiredFields(subs[i].request)
    ensures Replay(s, subs) == s
    decreases |subs|
  {
    if subs != [] {
      assert !HasRequiredFields(subs[0].request);
      ReplayRejectedUnchanged(s, subs[1..]);
    }
  }

  /** After N accepted requests the N new records come first, newest first:
      the record at position k is the one built from request N-1-k, with id
      nextId + N-1-k; the former records follow unchanged. */
  lemma {:induction false} ReplayNewestFirst(s: StoreState, subs: seq<Submission>)
    requires forall i :: 0 <= i < |subs| ==> HasRequiredFields(subs[i].request)
    ensures |Replay(s, subs).reports| == |subs| + |s.reports|
    ensures Replay(s, subs).nextId == s.nextId + |subs|
    ensures Replay(s, subs).reports[|subs|..] == s.reports
    ensures forall i :: 0 <= i < |subs| ==>
              Replay(s, subs).reports[|subs| - 1 - i] == NewReport(s.nextId + i, subs[i].request, subs[i].at)
    decreases |subs|
  {
    if subs != [] {
      var t := Create(s, subs[0].request, subs[0].at).0;
      var n := |subs|;
      assert forall i :: 0 <= i < n - 1 ==> subs[1..][i] == subs[i + 1];
      ReplayNewestFirst(t, subs[1..]);
      var u := Replay(t, subs[1..]).reports;
      assert u == Replay(s, subs).reports;
      assert u[n - 1..] == t.reports;
      assert u[n..] == t.reports[1..];
      forall i | 0 <= i < n
        ensures u[n - 1 - i] == NewReport(s.nextId + i, subs[i].request, subs[i].at)
      {
        if i == 0 {
          assert u[n - 1] == t.reports[0];
        } else {
          assert subs[1..][i - 1] == subs[i];
        }
      }
    }
  }
}
