/** Image resolution in the worksheet endpoint: when images are requested,
    every record of type "image" with a non-empty `images` value has each
    description replaced by a generated image, all or nothing. The remote
    image call is the parameter `gen`: `gen(description, subject)` is `None`
    when `generate_image` raises. A Python error that escapes the loop (a
    record that is not a dict, an `images` value that cannot be iterated, a
    failing description that cannot be sliced for the log line) aborts the
    whole request; the model reports it as `Crash`. */
module Images {
  import opened Wrappers
  import opened JsonValue

  /** What the loop over one record's descriptions ends with. */
  datatype Resolution =
    | Resolved(payloads: seq<string>)  // every call succeeded
    | Cleared                          // a call failed; the list is emptied
    | Crashed                          // a call failed and the log line raised

  /** The loop's result together with the descriptions it passed to `gen`, in
      call order. */
  datatype LoopRun = LoopRun(res: Resolution, called: seq<Json>)

  /** How a run that did not resolve every description ended: the calls
      went up to and including the first description `gen` failed on (the
      last one called), every earlier call succeeded, and the run crashed
      exactly when that description cannot be sliced. */
  predicate StoppedAtFirstFailure(descs: seq<Json>, subject: string, gen: (Json, string) -> Option<string>, r: LoopRun) {
    var k := |r.called| - 1;
    && 0 <= k < |descs| && r.called == descs[..k + 1]
    && gen(descs[k], subject).None?
    && (forall i :: 0 <= i < k ==> gen(descs[i], subject).Some?)
    && (r.res.Crashed? <==> !Sliceable(descs[k]))
  }

  /** The `for image_description in q_data["images"]` loop: it calls `gen` on
      each description in order and stops at the first failure. */
  function ResolveDescriptions(descs: seq<Json>, subject: string, gen: (Json, string) -> Option<string>): (r: LoopRun)
    ensures r.res.Resolved? <==> forall i :: 0 <= i < |descs| ==> gen(descs[i], subject).Some?
    ensures r.res.Resolved? ==> r.called == descs && |r.res.payloads| == |descs|
                                && forall i :: 0 <= i < |descs| ==> gen(descs[i], subject) == Some(r.res.payloads[i])
    ensures !r.res.Resolved? ==> StoppedAtFirstFailure(descs, subject, gen, r)
  {
    if |descs| == 0 then LoopRun(Resolved([]), [])
    else match gen(descs[0], subject)
      case None => LoopRun(if Sliceable(descs[0]) then Cleared else Crashed, [descs[0]])
      case Some(u) =>
        var rest := ResolveDescriptions(descs[1..], subject, gen);
        assert descs == [descs[0]] + descs[1..];
        match rest.res
        case Resolved(ps) =>
          ResolvedShifts(descs, subject, gen, u, ps);
          LoopRun(Resolved([u] + ps), [descs[0]] + rest.called)
        case other =>
          StopShifts(descs, subject, gen, rest);
          LoopRun(other, [descs[0]] + rest.called)
  }

  /** Payloads for the rest of the list, seen from the whole list. */
  lemma ResolvedShifts(descs: seq<Json>, subject: string, gen: (Json, string) -> Option<string>,
                       u: string, ps: seq<string>)
    requires |descs| > 0 && gen(descs[0], subject) == Some(u) && |ps| == |descs| - 1
    requires forall i :: 0 <= i < |ps| ==> gen(descs[1..][i], subject) == Some(ps[i])
    ensures |[u] + ps| == |descs|
    ensures forall i :: 0 <= i < |descs| ==> gen(descs[i], subject) == Some(([u] + ps)[i])
  {
    assert forall i :: 0 < i < |descs| ==> descs[i] == descs[1..][i - 1];
  }

  /** A stop found in the rest of the list, seen from the whole list. */
  lemma StopShifts(descs: seq<Json>, subject: string, gen: (Json, string) -> Option<string>, rest: LoopRun)
    requires |descs| > 0 && gen(descs[0], subject).Some?
    requires StoppedAtFirstFailure(descs[1..], subject, gen, rest)
    ensures StoppedAtFirstFailure(descs, subject, gen, LoopRun(rest.res, [descs[0]] + rest.called))
  {
    var k := |rest.called|;
    assert forall i :: 0 < i < |descs| ==> descs[i] == descs[1..][i - 1];
    assert [descs[0]] + rest.called == descs[..k + 1];
  }

  /** Why a request aborts. */
  datatype Crash = NotADict | NotIterable | UnsliceableDescription

  /** Whether the loop touches a record at all. */
  predicate WantsImages(q: Json)
    requires q.Obj?
  {
    Get(q.fields, "type") == Str("image") && Truthy(Get(q.fields, "images"))
  }

  function Payloads(ps: seq<string>): (r: seq<Json>)
    ensures |r| == |ps| && forall i :: 0 <= i < |ps| ==> r[i] == Str(ps[i])
  {
    seq(|ps|, i requires 0 <= i < |ps| => Str(ps[i]))
  }

  /** One iteration of the outer loop over the records. */
  function ResolveRecord(q: Json, subject: string, gen: (Json, string) -> Option<string>): Result<Json, Crash> {
    if !q.Obj? then Failure(NotADict)
    else if !WantsImages(q) then Success(q)
    else match Iterate(Get(q.fields, "images"))
      case None => Failure(NotIterable)
      case Some(descs) =>
        match ResolveDescriptions(descs, subject, gen).res
        case Crashed => Failure(UnsliceableDescription)
        case Cleared => Success(Obj(SetField(q.fields, "images", Arr([]))))
        case Resolved(ps) => Success(Obj(SetField(q.fields, "images", Arr(Payloads(ps)))))
  }

  /** The image pass over all records. With images off it is the identity. */
  function ResolveAll(records: seq<Json>, includeImages: bool, subject: string,
                      gen: (Json, string) -> Option<string>): (r: Result<seq<Json>, Crash>)
    ensures !includeImages ==> r == Success(records)
    ensures r.Success? ==> |r.value| == |records|
    ensures r.Success? && includeImages ==>
              forall i :: 0 <= i < |records| ==> ResolveRecord(records[i], subject, gen) == Success(r.value[i])
    ensures r.Failure? <==> includeImages && exists i :: 0 <= i < |records| && ResolveRecord(records[i], subject, gen).Failure?
  {
    if !includeImages || |records| == 0 then Success(records)
    else match ResolveRecord(records[0], subject, gen)
      case Failure(e) => Failure(e)
      case Success(q) =>
        match ResolveAll(records[1..], includeImages, subject, gen)
        case Failure(e) =>
          assert forall i :: 0 < i < |records| ==> records[i] == records[1..][i - 1];
          Failure(e)
        case Success(qs) =>
          assert forall i :: 0 < i < |records| ==> records[i] == records[1..][i - 1];
          Success([q] + qs)
  }

  // ---------------------------------------------------------------------
  // Properties

  /** A record the loop does not select comes out unchanged. */
  lemma UnselectedUntouched(q: Json, subject: string, gen: (Json, string) -> Option<string>)
    requires q.Obj? && !WantsImages(q)
    ensures ResolveRecord(q, subject, gen) == Success(q)
  {
  }

  /** All or nothing: a selected record ends with one payload per description,
      in order, or with an empty list; nothing but `images` changes, and no
      key is added or moved. */
  lemma SelectedAtomic(q: Json, subject: string, gen: (Json, string) -> Option<string>)
    requires q.Obj? && WantsImages(q)
    requires ResolveRecord(q, subject, gen).Success?
    ensures var r := ResolveRecord(q, subject, gen).value;
            var descs := Iterate(Get(q.fields, "images")).value;
            && r.Obj? && Keys(r.fields) == Keys(q.fields)
            && (forall k :: k != "images" ==> Get(r.fields, k) == Get(q.fields, k))
            && Get(r.fields, "images").Arr?
            && var out := Get(r.fields, "images").items;
               (|out| == 0 && exists i :: 0 <= i < |descs| && gen(descs[i], subject).None?)
               || (|out| == |descs|
                   && forall i :: 0 <= i < |descs| ==> out[i].Str? && gen(descs[i], subject) == Some(out[i].s))
  {
    SelectedKeepsKeys(q, subject, gen);
    SelectedImages(q, subject, gen);
  }

  lemma SelectedKeepsKeys(q: Json, subject: string, gen: (Json, string) -> Option<string>)
    requires q.Obj? && WantsImages(q)
    requires ResolveRecord(q, subject, gen).Success?
    ensures var r := ResolveRecord(q, subject, gen).value;
            && r.Obj? && Keys(r.fields) == Keys(q.fields)
            && (forall k :: k != "images" ==> Get(r.fields, k) == Get(q.fields, k))
  {
    assert HasKey(q.fields, "images");
  }

  lemma SelectedImages(q: Json, subject: string, gen: (Json, string) -> Option<string>)
    requires q.Obj? && WantsImages(q)
    requires ResolveRecord(q, subject, gen).Success?
    ensures var r := ResolveRecord(q, subject, gen).value;
            var descs := Iterate(Get(q.fields, "images")).value;
            && r.Obj? && Get(r.fields, "images").Arr?
            && var out := Get(r.fields, "images").items;
               (|out| == 0 && exists i :: 0 <= i < |descs| && gen(descs[i], subject).None?)
               || (|out| == |descs|
                   && forall i :: 0 <= i < |descs| ==> out[i].Str? && gen(descs[i], subject) == Some(out[i].s))
  {
    var descs := Iterate(Get(q.fields, "images")).value;
    var run := ResolveDescriptions(descs, subject, gen);
    if !run.res.Resolved? {
      var k := |run.called| - 1;
      assert gen(descs[k], subject).None?;
    }
  }

  /** Calls stop at the first failure: the descriptions sent to `gen` are the
      list up to and including the first one that fails, or all of them. */
  lemma CallsStopAtFirstFailure(descs: seq<Json>, subject: string, gen: (Json, string) -> Option<string>, k: nat)
    requires k < |descs| && gen(descs[k], subject).None?
    requires forall i :: 0 <= i < k ==> gen(descs[i], subject).Some?
    ensures ResolveDescriptions(descs, subject, gen).called == descs[..k + 1]
  {
    var r := ResolveDescriptions(descs, subject, gen);
    assert !r.res.Resolved?;
  }
}
