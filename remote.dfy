/** The HTTP calls the frontend makes, as abstract operations. Every call is
    recorded in order, and its outcome is the next of a scripted sequence of
    replies: an id the server assigned (or, for a photo upload, any response
    at all), or a failure. `fetch`, JSON and the server are left out. */
module Remote {
  import opened Common
  import opened Domain

  datatype Request =
    | CreateBrand(name: string)
    | CreateModel(name: string, brandId: int)
    | CreateCar(car: Car)
    | UploadPhoto(carId: int, file: File, isMain: bool)

  /** `Ok(id)`: the call completed and its body carried `id` (for an upload,
      whose response the caller never reads, the value is meaningless).
      `Fail`: the call was rejected, or its body could not be read. */
  datatype Reply = Ok(id: int) | Fail

  /** The reply the next call gets; once the script is exhausted, calls fail. */
  function NextReply(replies: seq<Reply>): Reply {
    if replies == [] then Fail else replies[0]
  }

  function Remaining(replies: seq<Reply>): (rest: seq<Reply>)
    ensures |rest| == if replies == [] then 0 else |replies| - 1
  {
    if replies == [] then [] else replies[1..]
  }

  /** What a form sends before it hands the car on, the brand and model ids
      it ends with (`None` when a request failed), and the replies left. */
  datatype Resolution = Resolution(requests: seq<Request>, ids: Option<(int, int)>, rest: seq<Reply>)

  class Api {
    /** The replies still to come. */
    var pending: seq<Reply>
    /** Every request sent so far, oldest first. */
    var log: seq<Request>

    constructor(replies: seq<Reply>)
      ensures pending == replies && log == []
    {
      pending := replies;
      log := [];
    }

    /** Send one request and wait for its outcome. */
    method Send(r: Request) returns (reply: Reply)
      modifies this
      ensures log == old(log) + [r]
      ensures reply == NextReply(old(pending)) && pending == Remaining(old(pending))
    {
      log := log + [r];
      reply := NextReply(pending);
      pending := Remaining(pending);
    }
  }
}
