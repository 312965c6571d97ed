/** The fan-out/fan-in shared by `POST /postTrips` and `POST /postObd`
    (index.js:224-268, 270-329). The handler starts one save per posted
    element; each save's callback later fires once, with the stored
    document or with an error. A callback that gets an error answers the
    request with that error; one that gets a document appends it to the
    shared `saved` array and answers with the whole array when its length
    has reached the number of elements posted. Nothing checks whether a
    response has already gone out; a `res.json` call on a finished response
    throws inside the callback, so the client sees only the first one.

    The callbacks are modelled as a history of completion events processed
    one at a time in any order; the responses are the log of `res.json`
    calls the callbacks make. */
module Ingest {

  /** A document as the store returns it: the record and the identifier the
      store assigned to it. */
  datatype Stored<T> = Stored(id: string, record: T)

  /** What one save hands to its callback. */
  datatype Outcome<T, E> = Saved(doc: Stored<T>) | Failed(err: E)

  /** One callback firing. `slot` is the loop iteration whose save it ends;
      the handler's code never looks at it. */
  datatype Completion<T, E> = Completion(slot: nat, outcome: Outcome<T, E>)

  /** One `res.json(...)` call: the saved documents, or a store error. */
  datatype Response<T, E> = Documents(docs: seq<Stored<T>>) | ErrorBody(err: E)

  // ---------------------------------------------------------------------
  // The behaviour of the callbacks, as functions of the completion history

  /** The `saved` array after the history: the stored documents, in the
      order their saves completed. */
  function SavedDocs<T, E>(h: seq<Completion<T, E>>): seq<Stored<T>> {
    if h == [] then []
    else
      var last := h[|h| - 1];
      SavedDocs(h[..|h| - 1]) + (if last.outcome.Saved? then [last.outcome.doc] else [])
  }

  /** The errors the history carries, in completion order. */
  function Failures<T, E>(h: seq<Completion<T, E>>): seq<E> {
    if h == [] then []
    else
      var last := h[|h| - 1];
      Failures(h[..|h| - 1]) + (if last.outcome.Failed? then [last.outcome.err] else [])
  }

  /** What one callback sends, given the `saved` array it finds and the
      number `n` of elements posted. */
  function Emitted<T, E>(n: nat, saved: seq<Stored<T>>, ev: Completion<T, E>): seq<Response<T, E>> {
    match ev.outcome
    case Failed(e) => [ErrorBody(e)]
    case Saved(d) => if |saved| + 1 == n then [Documents(saved + [d])] else []
  }

  /** Every response sent over the history, in order. */
  function Responses<T, E>(n: nat, h: seq<Completion<T, E>>): seq<Response<T, E>> {
    if h == [] then []
    else Responses(n, h[..|h| - 1]) + Emitted(n, SavedDocs(h[..|h| - 1]), h[|h| - 1])
  }

  /** The number of success responses among `rs`. */
  function SuccessCount<T, E>(rs: seq<Response<T, E>>): nat {
    if rs == [] then 0
    else SuccessCount(rs[..|rs| - 1]) + (if rs[|rs| - 1].Documents? then 1 else 0)
  }

  /** The errors sent among `rs`, in order. */
  function ErrorBodies<T, E>(rs: seq<Response<T, E>>): seq<E> {
    if rs == [] then []
    else
      var last := rs[|rs| - 1];
      ErrorBodies(rs[..|rs| - 1]) + (if last.ErrorBody? then [last.err] else [])
  }

  /** Each of the `n` saves started ends at most once: every event names a
      started save, and no two events name the same one. */
  ghost predicate WellFormed<T, E>(n: nat, h: seq<Completion<T, E>>) {
    && (forall i :: 0 <= i < |h| ==> h[i].slot < n)
    && (forall i, j :: 0 <= i < j < |h| ==> h[i].slot != h[j].slot)
  }

  /** The store hands back each record as it was given, with an identifier. */
  ghost predicate StoredAsStarted<T, E>(started: seq<T>, h: seq<Completion<T, E>>) {
    forall i :: 0 <= i < |h| && h[i].slot < |started| && h[i].outcome.Saved? ==>
      h[i].outcome.doc.record == started[h[i].slot]
  }

  // ---------------------------------------------------------------------
  // Properties of the callbacks

  /** Every event either saves a document or reports an error. */
  lemma {:induction false} CountsAddUp<T, E>(h: seq<Completion<T, E>>)
    ensures |SavedDocs(h)| + |Failures(h)| == |h|
  {
    if h != [] {
      CountsAddUp(h[..|h| - 1]);
    }
  }

  /** A success response is sent exactly once when the number of saved
      documents has reached `n`, and never otherwise: the array grows by one
      per saved document, so its length equals `n` at one callback at most. */
  lemma {:induction false} SuccessOnceAtN<T, E>(n: nat, h: seq<Completion<T, E>>)
    ensures SuccessCount(Responses(n, h)) == if n > 0 && |SavedDocs(h)| >= n then 1 else 0
  {
    if h != [] {
      var p := h[..|h| - 1];
      SuccessOnceAtN(n, p);
      SuccessCountAppend(Responses(n, p), Emitted(n, SavedDocs(p), h[|h| - 1]));
    }
  }

  lemma {:induction false} SuccessCountAppend<T, E>(a: seq<Response<T, E>>, b: seq<Response<T, E>>)
    requires |b| <= 1
    ensures SuccessCount(a + b) == SuccessCount(a) + SuccessCount(b)
  {
    if b == [] {
      assert a + b == a;
    } else {
      assert (a + b)[..|a + b| - 1] == a;
      assert b[..0] == [];
    }
  }

  /** A success response holds the first `n` documents saved, in the order
      their saves completed. */
  lemma {:induction false} SuccessHoldsFirstN<T, E>(n: nat, h: seq<Completion<T, E>>, k: nat)
    requires k < |Responses(n, h)| && Responses(n, h)[k].Documents?
    ensures n <= |SavedDocs(h)|
    ensures Responses(n, h)[k].docs == SavedDocs(h)[..n]
  {
    var p := h[..|h| - 1];
    var rp := Responses(n, p);
    if k < |rp| {
      SuccessHoldsFirstN(n, p, k);
      assert SavedDocs(p) <= SavedDocs(h);
    } else {
      assert SavedDocs(h) == SavedDocs(p) + [h[|h| - 1].outcome.doc];
    }
  }

  /** Every error completion calls `res.json` with its error, in completion
      order, and nothing else does: no guard skips the call once a response
      has gone out. */
  lemma {:induction false} EveryErrorSent<T, E>(n: nat, h: seq<Completion<T, E>>)
    ensures ErrorBodies(Responses(n, h)) == Failures(h)
  {
    if h != [] {
      var p := h[..|h| - 1];
      EveryErrorSent(n, p);
      var rs := Responses(n, p);
      var em := Emitted(n, SavedDocs(p), h[|h| - 1]);
      if em != [] {
        assert (rs + em)[..|rs + em| - 1] == rs;
      } else {
        assert rs + em == rs;
      }
    }
  }

  /** The numbers below `n`. */
  function Range(n: nat): (r: set<nat>)
    ensures |r| == n
    ensures forall s: nat :: s in r <==> s < n
  {
    if n == 0 then {} else Range(n - 1) + {n - 1}
  }

  /** The slots of the history, as a set. */
  function SlotSet<T, E>(h: seq<Completion<T, E>>): set<nat> {
    set i | 0 <= i < |h| :: h[i].slot
  }

  /** The set of slots of a well-formed history has one element per event. */
  lemma {:induction false} SlotSetSize<T, E>(n: nat, h: seq<Completion<T, E>>)
    requires WellFormed(n, h)
    ensures |SlotSet(h)| == |h|
  {
    if h != [] {
      var p := h[..|h| - 1];
      assert WellFormed(n, p);
      SlotSetSize(n, p);
      forall i | 0 <= i < |p| ensures p[i].slot != h[|h| - 1].slot {
        assert p[i] == h[i];
      }
      assert h[|h| - 1].slot !in SlotSet(p);
      assert SlotSet(h) == SlotSet(p) + {h[|h| - 1].slot};
    }
  }

  lemma {:induction false} SubsetSize(a: set<nat>, b: set<nat>)
    requires a <= b
    ensures |a| <= |b|
    ensures |a| == |b| ==> a == b
    decreases b
  {
    if a != {} {
      var x :| x in a;
      SubsetSize(a - {x}, b - {x});
      assert a == (a - {x}) + {x} && b == (b - {x}) + {x};
    } else if |b| == 0 {
      assert b == {};
    }
  }

  /** A callback for a save that was started and has not ended yet keeps
      the history well formed. */
  lemma ExtendWellFormed<T, E>(n: nat, h: seq<Completion<T, E>>, ev: Completion<T, E>)
    requires WellFormed(n, h) && ev.slot < n && ev.slot !in SlotSet(h)
    ensures WellFormed(n, h + [ev])
  {
  }

  /** One more callback: its document joins `saved`, and its responses
      follow the earlier ones. */
  lemma Step<T, E>(n: nat, h: seq<Completion<T, E>>, ev: Completion<T, E>)
    ensures SavedDocs(h + [ev]) == SavedDocs(h) + (if ev.outcome.Saved? then [ev.outcome.doc] else [])
    ensures Responses(n, h + [ev]) == Responses(n, h) + Emitted(n, SavedDocs(h), ev)
  {
  }

  /** At most `n` saves complete, and when all `n` have, every started save
      has completed exactly once. */
  lemma WellFormedBound<T, E>(n: nat, h: seq<Completion<T, E>>)
    requires WellFormed(n, h)
    ensures |h| <= n
    ensures |h| == n ==> forall s :: 0 <= s < n ==> s in SlotSet(h)
  {
    var slots := SlotSet(h);
    var range := Range(n);
    SlotSetSize(n, h);
    forall s | s in slots ensures s in range {
      var i :| 0 <= i < |h| && h[i].slot == s;
    }
    SubsetSize(slots, range);
  }

  /** Once one of the `n` saves has failed, the saved array can never reach
      length `n`, so no success response is ever sent. */
  lemma FailureBlocksSuccess<T, E>(n: nat, h: seq<Completion<T, E>>)
    requires WellFormed(n, h)
    requires |Failures(h)| > 0
    ensures |SavedDocs(h)| < n
    ensures SuccessCount(Responses(n, h)) == 0
  {
    CountsAddUp(h);
    WellFormedBound(n, h);
    SuccessOnceAtN(n, h);
  }

  /** With nothing posted no save is started, so no callback can fire and
      nothing is ever sent; whatever happens, no success response is sent. */
  lemma EmptyBatchSilent<T, E>(h: seq<Completion<T, E>>)
    ensures WellFormed(0, h) ==> h == [] && Responses(0, h) == []
    ensures SuccessCount(Responses(0, h)) == 0
  {
    SuccessOnceAtN(0, h);
    if WellFormed(0, h) {
      WellFormedBound(0, h);
    }
  }

  /** Without a failure every event saved a document, and `saved` lists
      them in completion order. */
  lemma {:induction false} NoFailureAllSaved<T, E>(h: seq<Completion<T, E>>)
    requires Failures(h) == []
    ensures |SavedDocs(h)| == |h|
    ensures forall k :: 0 <= k < |h| ==> h[k].outcome.Saved? && SavedDocs(h)[k] == h[k].outcome.doc
  {
    if h != [] {
      var p := h[..|h| - 1];
      assert Failures(p) == [] && h[|h| - 1].outcome.Saved?;
      NoFailureAllSaved(p);
    }
  }

  /** While fewer than `n` saves have completed and none failed, nothing has
      been sent. */
  lemma {:induction false} QuietUntilLast<T, E>(n: nat, h: seq<Completion<T, E>>)
    requires |h| < n && Failures(h) == []
    ensures Responses(n, h) == []
  {
    if h != [] {
      var p := h[..|h| - 1];
      assert Failures(p) == [] && h[|h| - 1].outcome.Saved?;
      QuietUntilLast(n, p);
      NoFailureAllSaved(p);
    }
  }

  /** When all `n` saves succeed, exactly one response is sent: every saved
      document, in completion order. */
  lemma AllSavedSendsAll<T, E>(n: nat, h: seq<Completion<T, E>>)
    requires n > 0 && |h| == n && Failures(h) == []
    ensures Responses(n, h) == [Documents(SavedDocs(h))]
  {
    var p := h[..n - 1];
    assert Failures(p) == [] && h[n - 1].outcome.Saved?;
    QuietUntilLast(n, p);
    NoFailureAllSaved(p);
  }

  /** In that response the `k`-th document ends the save started for
      element `h[k].slot`, and every posted element has exactly one save
      among them. If the store hands records back unchanged, the response is
      a reordering of the records started, one per posted element. */
  lemma AllSavedCoversBatch<T, E>(started: seq<T>, h: seq<Completion<T, E>>)
    requires WellFormed(|started|, h) && |h| == |started| && Failures(h) == []
    ensures |SavedDocs(h)| == |started|
    ensures forall s :: 0 <= s < |started| ==> s in SlotSet(h)
    ensures forall k :: 0 <= k < |h| ==> h[k].outcome.Saved? && SavedDocs(h)[k] == h[k].outcome.doc
    ensures StoredAsStarted(started, h) ==>
      forall k :: 0 <= k < |h| ==> SavedDocs(h)[k].record == started[h[k].slot]
  {
    NoFailureAllSaved(h);
    WellFormedBound(|started|, h);
  }

  /** The success response follows completion order, not posting order: when
      the second save completes first, its document comes first. */
  lemma CompletionOrderNotPostingOrder<T, E>(d0: Stored<T>, d1: Stored<T>)
    ensures Responses<T, E>(2, [Completion(1, Saved(d1)), Completion(0, Saved(d0))]) == [Documents([d1, d0])]
  {
    var h: seq<Completion<T, E>> := [Completion(1, Saved(d1)), Completion(0, Saved(d0))];
    assert h[..1] == [Completion(1, Saved(d1))];
    assert h[..1][..0] == [];
    assert SavedDocs(h[..1]) == [d1];
    assert Responses(2, h[..1]) == [];
    assert [d1] + [d0] == [d1, d0];
    assert Responses(2, h) == Responses(2, h[..1]) + Emitted(2, SavedDocs(h[..1]), h[1]);
  }

  // ---------------------------------------------------------------------
  // The handler

  /** The dispatch loop: one record mapped per posted element, in order, at
      the clock reading of its iteration; each becomes the argument of one
      save. */
  method Dispatch<R, T>(body: seq<R>, clock: nat -> int, mapper: (R, int) -> T) returns (started: seq<T>)
    ensures |started| == |body|
    ensures forall i :: 0 <= i < |body| ==> started[i] == mapper(body[i], clock(i))
  {
    var n := |body|;
    started := [];
    var i := 0;
    while i < n
      invariant 0 <= i <= n
      invariant |started| == i
      invariant forall j :: 0 <= j < i ==> started[j] == mapper(body[j], clock(j))
    {
      var received := body[i];
      started := started + [mapper(received, clock(i))];
      i := i + 1;
    }
  }

  /** The state one POST request shares among its save callbacks. */
  class Handler<T, E> {
    /** The number of elements posted (`req.body.length`). */
    const n: nat
    /** The records whose saves were started, in posting order. */
    const started: seq<T>
    /** The `saved` array. */
    var saved: seq<Stored<T>>
    /** Every `res.json(...)` call so far. */
    var responses: seq<Response<T, E>>
    /** The callbacks that have fired so far. */
    ghost var history: seq<Completion<T, E>>

    ghost predicate Valid()
      reads this
    {
      && |started| == n
      && WellFormed(n, history)
      && saved == SavedDocs(history)
      && responses == Responses(n, history)
    }

    /** The state once the dispatch loop has started one save per record:
      `saved` is empty and nothing has been sent. */
    constructor (records: seq<T>)
      ensures Valid()
      ensures n == |records| && started == records
      ensures saved == [] && responses == [] && history == []
    {
      n := |records|;
      started := records;
      saved := [];
      responses := [];
      history := [];
    }

    /** One save callback firing. */
    method OnComplete(ev: Completion<T, E>)
      requires Valid()
      requires ev.slot < n && ev.slot !in SlotSet(history)
      modifies this
      ensures Valid()
      ensures history == old(history) + [ev]
      ensures saved == old(saved) + (if ev.outcome.Saved? then [ev.outcome.doc] else [])
      ensures responses == old(responses) + Emitted(n, old(saved), ev)
    {
      match ev.outcome {
        case Failed(e) =>
          responses := responses + [ErrorBody(e)];
        case Saved(d) =>
          saved := saved + [d];
          if |saved| == n {
            responses := responses + [Documents(saved)];
          }
      }
      ExtendWellFormed(n, history, ev);
      Step(n, history, ev);
      history := history + [ev];
    }
  }
}
