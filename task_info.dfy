/**
 * Task payloads: what work a task describes. The base payload (`TaskInfo`,
 * type tag "none") carries nothing; the render payload (`TaskInfoRender`,
 * type tag "render") carries a resolution and a frame number.
 */
module TaskInfos {
  import opened Wrappers
  import opened Records
  import Strings

  datatype TaskInfo =
    | Generic
    | Render(resolution: seq<int>, frame: int)

  const DefaultResolution: seq<int> := [1920, 1080]

  /** The type tag written next to the payload when a task is saved. */
  function InfoType(info: TaskInfo): (tag: string)
    ensures tag == "render" <==> info.Render?
    ensures tag == "none" <==> info.Generic?
  {
    match info
    case Generic => "none"
    case Render(_, _) => "render"
  }

  /** A render payload as freshly constructed: 1920x1080, frame 0. */
  function NewRender(): (info: TaskInfo)
    ensures InfoType(info) == "render"
    ensures info.resolution == DefaultResolution && info.frame == 0
  {
    Render(DefaultResolution, 0)
  }

  /**
   * The payload a task restores into for a saved type tag: a fresh render
   * payload for "render", and nothing for every other tag, "none" included.
   */
  function FromTag(tag: string): (info: Option<TaskInfo>)
    ensures info.Some? <==> tag == "render"
    ensures info.Some? ==> InfoType(info.value) == tag
  {
    if tag == "render" then Some(NewRender()) else None
  }

  /** The payload's fields as a record: empty for the base payload. */
  function Serialize(info: TaskInfo): (r: Record)
    ensures info.Generic? ==> r == map[]
    ensures info.Render? ==> r.Keys == {"resolution", "frame"} && RenderRecord(r)
    ensures info.Render? ==> r["frame"] == Int(info.frame) && ToInts(r["resolution"]) == info.resolution
  {
    match info
    case Generic => map[]
    case Render(resolution, frame) =>
      map["resolution" := FromInts(resolution), "frame" := Int(frame)]
  }

  /** A record from which a render payload can restore its fields. */
  predicate RenderRecord(data: Record) {
    && "resolution" in data && IsIntList(data["resolution"])
    && "frame" in data && data["frame"].Int?
  }

  /**
   * The payload after `unserialize(data)`: the base payload ignores the
   * record; a render payload takes its resolution and frame from it.
   */
  function Unserialize(info: TaskInfo, data: Record): (r: TaskInfo)
    requires info.Render? ==> RenderRecord(data)
    ensures r.Render? <==> info.Render?
    ensures info.Generic? ==> r == info
    ensures info.Render? ==> Serialize(r) == data - (data.Keys - {"resolution", "frame"})
  {
    match info
    case Generic => info
    case Render(_, _) =>
      var r := Render(ToInts(data["resolution"]), data["frame"].i);
      FromToInts(data["resolution"]);
      r
  }

  /** Restoring a payload from its own record gives the payload back. */
  lemma SerializeUnserialize(info: TaskInfo)
    ensures Unserialize(info, Serialize(info)) == info
  {
  }

  /**
   * Where the rendered image of a render payload is stored: the directory
   * "result", then the job id, then the frame number with ".png" appended.
   */
  function ResultFilename(info: TaskInfo, jobId: string): (path: string)
    requires info.Render?
    ensures |path| == 12 + |jobId| + |Strings.IntToString(info.frame)|
    ensures path[..7] == "result/" && path[7..7 + |jobId|] == jobId && path[7 + |jobId|] == '/'
    ensures path[8 + |jobId|..|path| - 4] == Strings.IntToString(info.frame)
    ensures path[|path| - 4..] == ".png"
  {
    "result/" + jobId + "/" + Strings.IntToString(info.frame) + ".png"
  }

  /**
   * The result filename depends on the frame and on nothing else of the
   * payload: within one job, two render payloads share a filename exactly
   * when they have the same frame.
   */
  lemma ResultFilenameInjective(a: TaskInfo, b: TaskInfo, jobId: string)
    requires a.Render? && b.Render?
    ensures ResultFilename(a, jobId) == ResultFilename(b, jobId) <==> a.frame == b.frame
  {
  }
}
