/**
 * The conditional camera (conditional_camera/conditional_cam.go): instead of vision services,
 * one generic service answers a yes/no question per image. Its buffer (AddToRingBuffer,
 * MarkShouldSend of a capture time, ToSend) belongs to a newer buffer than image_buffer.go: the
 * model records the calls made to it and keeps ToSend as a plain sequence.
 */
module ConditionalCamera {
  import opened Wrappers
  import opened CameraTypes
  import opened Common
  import opened ImageBuffer

  datatype Config = Config(camera: string, filterSvc: string, windowSeconds: int, imageFrequency: real)
  {
    /** Config.Validate: camera first, then filter_service, then a positive image_frequency; the
        dependencies are exactly the camera and the filter service. */
    function Validate(path: string): (r: Result<seq<string>, ConfigError>)
      ensures r.Success? <==> camera != "" && filterSvc != "" && imageFrequency > 0.0
      ensures r.Success? ==> r.value == [camera, filterSvc]
      ensures camera == "" ==> r == Failure(FieldRequired(At(path), "camera"))
      ensures camera != "" && filterSvc == "" ==> r == Failure(FieldRequired(At(path), "filter_service"))
      ensures camera != "" && filterSvc != "" && imageFrequency <= 0.0 ==>
        r == Failure(Invalid(At(path), "image_frequency must be greater than 0"))
    {
      if camera == "" then Failure(FieldRequired(At(path), "camera"))
      else if filterSvc == "" then Failure(FieldRequired(At(path), "filter_service"))
      else if imageFrequency <= 0.0 then Failure(Invalid(At(path), "image_frequency must be greater than 0"))
      else Success([camera, filterSvc])
    }
  }

  /** shouldSend: the filter service's DoCommand reply must carry a boolean under "result". A
      failing call is passed on; a reply without a boolean there makes Go's type assertion panic. */
  function ShouldSend(reply: Result<map<string, Any>, string>): (r: Result<bool, CallError>)
    ensures reply.Failure? ==> r == Failure(Failed(reply.error))
    ensures r.Success? <==> reply.Success? && "result" in reply.value && reply.value["result"].Bool?
    ensures r.Success? ==> r.value == reply.value["result"].b
    ensures reply.Success? && r.Failure? ==> r.error == Panic
  {
    match reply
    case Failure(e) => Failure(Failed(e))
    case Success(ans) =>
      if "result" in ans && ans["result"].Bool? then Success(ans["result"].b) else Failure(Panic)
  }

  /** What the loop over the images makes of the filter service's replies: how many said yes, and
      the error that stopped the loop, if any. */
  datatype Poll = Poll(yes: nat, err: Option<CallError>)

  function PollAll(replies: seq<Result<map<string, Any>, string>>): Poll {
    if replies == [] then Poll(0, None)
    else match ShouldSend(replies[0])
      case Failure(e) => Poll(0, Some(e))
      case Success(yes) =>
        var rest := PollAll(replies[1..]);
        Poll(rest.yes + (if yes then 1 else 0), rest.err)
  }

  /** The loop counts at most one yes per image, stops with an error exactly when some reply is not
      a boolean answer, and marks every image when every reply says yes and none when none does. */
  lemma {:induction false} PollAllMeaning(replies: seq<Result<map<string, Any>, string>>)
    ensures PollAll(replies).yes <= |replies|
    ensures PollAll(replies).err.None? <==> forall i | 0 <= i < |replies| :: ShouldSend(replies[i]).Success?
    ensures (forall i | 0 <= i < |replies| :: ShouldSend(replies[i]) == Success(true)) ==> PollAll(replies) == Poll(|replies|, None)
    ensures (forall i | 0 <= i < |replies| :: ShouldSend(replies[i]) != Success(true)) ==> PollAll(replies).yes == 0
  {
    if replies != [] {
      PollAllMeaning(replies[1..]);
      assert forall i | 1 <= i < |replies| :: replies[i] == replies[1..][i - 1];
    }
  }

  /** `n` copies of `x`. */
  function Repeat(x: int, n: nat): (r: seq<int>)
    ensures |r| == n && forall i | 0 <= i < n :: r[i] == x
  {
    if n == 0 then [] else Repeat(x, n - 1) + [x]
  }

  class ConditionalCamera {
    /** The abstract ToSend queue of the buffer. */
    var toSend: seq<CachedData>
    /** The captures handed to the buffer's AddToRingBuffer, in call order. */
    var ringAdds: seq<CachedData>
    /** The capture times handed to the buffer's MarkShouldSend, in call order. */
    var marks: seq<int>

    constructor (toSend: seq<CachedData>)
      ensures this.toSend == toSend && ringAdds == [] && marks == []
    {
      this.toSend := toSend;
      ringAdds := [];
      marks := [];
    }

    /** images: a camera error, or a request that is not from data management, passes the camera's
        reply through untouched. Otherwise the capture goes to the ring buffer, the filter service
        is asked once per image (each yes marks the capture time, an error ends the call), and the
        oldest entry of ToSend is popped; with ToSend empty the no-capture sentinel is returned.
        The buffer's own response to AddToRingBuffer and MarkShouldSend lies outside this model:
        `queued` is ToSend as those calls leave it, and it is the queue the pop reads. */
    method Images(cam: ImagesReply, extra: Option<map<string, Any>>, replies: seq<Result<map<string, Any>, string>>, queued: seq<CachedData>) returns (out: ImagesReply)
      requires |replies| == |cam.imgs|
      modifies this
      ensures cam.err.Some? || !IsFromDataMgmt(extra) ==>
        out == cam && toSend == old(toSend) && ringAdds == old(ringAdds) && marks == old(marks)
      ensures cam.err.None? && IsFromDataMgmt(extra) ==>
        && ringAdds == old(ringAdds) + [CachedData(cam.imgs, cam.meta)]
        && marks == old(marks) + Repeat(cam.meta.capturedAt, PollAll(replies).yes)
        && match PollAll(replies).err
           case Some(e) => out == ImagesReply([], cam.meta, Some(e)) && toSend == queued
           case None =>
             if queued != [] then
               out == ImagesReply(queued[0].imgs, queued[0].meta, None) && toSend == queued[1..]
             else
               out == ImagesReply([], cam.meta, Some(NoCaptureToStore)) && toSend == []
    {
      if cam.err.Some? {
        return cam;
      }
      if IsFromDataMgmt(extra) {
        ringAdds := ringAdds + [CachedData(cam.imgs, cam.meta)];
      } else {
        return cam;
      }

      var err := AskFilter(cam.meta.capturedAt, replies);
      toSend := queued;
      if err.Some? {
        return ImagesReply([], cam.meta, err);
      }

      if |toSend| > 0 {
        var x := toSend[0];
        toSend := toSend[1..];
        return ImagesReply(x.imgs, x.meta, None);
      }
      return ImagesReply([], cam.meta, Some(NoCaptureToStore));
    }

    /** The loop of images over the filter service's replies, one per image: each yes marks the
        capture time `capturedAt`, and the first error ends the loop and is returned. */
    method AskFilter(capturedAt: int, replies: seq<Result<map<string, Any>, string>>) returns (err: Option<CallError>)
      modifies this`marks
      ensures marks == old(marks) + Repeat(capturedAt, PollAll(replies).yes)
      ensures err == PollAll(replies).err
    {
      ghost var yes := 0;
      for i := 0 to |replies|
        invariant PollAll(replies).yes == PollAll(replies[i..]).yes + yes
        invariant PollAll(replies).err == PollAll(replies[i..]).err
        invariant marks == old(marks) + Repeat(capturedAt, yes)
      {
        assert replies[i..][0] == replies[i] && replies[i..][1..] == replies[i + 1..];
        var shouldSend := ShouldSend(replies[i]);
        if shouldSend.Failure? {
          return Some(shouldSend.error);
        }
        if shouldSend.value {
          marks := marks + [capturedAt];
          yes := yes + 1;
        }
      }
      assert replies[|replies|..] == [];
      return None;
    }
  }
}
