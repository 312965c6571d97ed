/** The two ingestion routes: the dispatch loop with the route's own mapper,
    then the shared callback state (index.js:224-268 and 270-329). */
module Routes {
  import opened Wrappers
  import opened Json
  import opened Trips
  import opened ObdRecords
  import opened Ingest

  /** `POST /postTrips`: one trip record per posted element, stamped with the
      clock reading of its loop iteration, one save started for each, nothing
      sent yet. */
  method PostTrips<E>(body: seq<Raw>, clock: nat -> Timestamp) returns (h: Handler<Trip, E>)
    ensures fresh(h) && h.Valid()
    ensures h.n == |body| && h.saved == [] && h.responses == [] && h.history == []
    ensures forall i :: 0 <= i < |body| ==> h.started[i] == ToTrip(body[i], clock(i))
  {
    var started := Dispatch(body, clock, ToTrip);
    h := new Handler(started);
  }

  /** `POST /postObd`: the same with the OBD mapper. */
  method PostObd<E>(body: seq<Raw>, clock: nat -> Timestamp) returns (h: Handler<Obd, E>)
    ensures fresh(h) && h.Valid()
    ensures h.n == |body| && h.saved == [] && h.responses == [] && h.history == []
    ensures forall i :: 0 <= i < |body| ==> h.started[i] == ToObd(body[i], clock(i))
  {
    var started := Dispatch(body, clock, ToObd);
    h := new Handler(started);
  }

  /** Two readings of vehicle "ABC", with ids 1 and 2 and speeds 60 and 65. */
  const FirstReading: Raw := map["id" := Number(1), "obdVin" := Text("ABC"), "obdSpeed" := Number(60)]
  const SecondReading: Raw := map["id" := Number(2), "obdVin" := Text("ABC"), "obdSpeed" := Number(65)]

  /** Both readings posted at once and both saved, the second save ending
      first: one response is sent, holding both stored records, second
      first, each with its own `receivedId` and speed and the clock reading
      of its loop iteration as `receivedDate`. */
  method TwoReadingsSavedOutOfOrder<E>(t0: Timestamp, t1: Timestamp) returns (sent: seq<Response<Obd, E>>)
    ensures |sent| == 1 && sent[0].Documents? && |sent[0].docs| == 2
    ensures sent[0].docs[0].id == "b" && sent[0].docs[1].id == "a"
    ensures sent[0].docs[0].record.receivedId == Some(Number(2))
    ensures sent[0].docs[0].record.obdSpeed == Some(Number(65))
    ensures sent[0].docs[0].record.receivedDate == t1
    ensures sent[0].docs[1].record.receivedId == Some(Number(1))
    ensures sent[0].docs[1].record.obdSpeed == Some(Number(60))
    ensures sent[0].docs[1].record.receivedDate == t0
  {
    var h := PostObd<E>([FirstReading, SecondReading], i => if i == 0 then t0 else t1);
    h.OnComplete(Completion(1, Saved(Stored("b", h.started[1]))));
    h.OnComplete(Completion(0, Saved(Stored("a", h.started[0]))));
    sent := h.responses;
  }
}
