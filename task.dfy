/**
 * A task: one unit of work of a job, offered to render nodes. The task
 * object is updated in place: its constructor sets every field and
 * `Unserialize` overwrites the persisted ones from a saved record.
 */
module Tasks {
  import opened Wrappers
  import opened Records
  import TaskInfos

  /** The owning job; a task only reads its id. */
  datatype Job = Job(jobId: string)

  type NodeId = string

  /** The status of a task as the scheduler sees it. */
  datatype Status = Ignored | Completed | Claimed | Assignable

  /** The keys of a saved task; `in_progress` and `nodes_working` are not among them. */
  const TaskRecordKeys: set<string> :=
    {"job_id", "task_id", "ignore", "complete", "task_info_type", "task_info"}

  /** A saved task record that `Unserialize` can read without a missing key or a wrong type. */
  predicate TaskRecord(data: Record) {
    && "job_id" in data && (data["job_id"].Str? || data["job_id"].Null?)
    && "task_id" in data && data["task_id"].Str?
    && "ignore" in data && data["ignore"].Bool?
    && "complete" in data && data["complete"].Bool?
    && "task_info_type" in data && data["task_info_type"].Str?
    && (data["task_info_type"].s == "render" ==>
          "task_info" in data && data["task_info"].Dict?
          && TaskInfos.RenderRecord(data["task_info"].fields))
  }

  /** The job id stored in a record: a string, or `None`. */
  function JobIdOf(v: Value): (id: Option<string>)
    requires v.Str? || v.Null?
    ensures id.Some? <==> v.Str?
    ensures id.Some? ==> Str(id.value) == v
  {
    if v.Str? then Some(v.s) else None
  }

  class Task {
    var job: Option<Job>
    var jobId: Option<string>
    var taskId: string
    var ignore: bool
    var complete: bool
    var inProgress: bool
    var taskInfo: Option<TaskInfos.TaskInfo>
    var nodesWorking: seq<NodeId>

    /**
     * A new task: no flag set, no node working on it, and the job id copied
     * from the job when there is one. `taskId` is the identifier the
     * database's generator hands out.
     */
    constructor (job: Option<Job>, taskInfo: Option<TaskInfos.TaskInfo>, taskId: string)
      ensures this.job == job
      ensures jobId == (if job.Some? then Some(job.value.jobId) else None)
      ensures this.taskId == taskId
      ensures !ignore && !complete && !inProgress && nodesWorking == []
      ensures this.taskInfo == taskInfo
      ensures ShouldExecute()
    {
      this.job := job;
      jobId := None;
      if job.Some? {
        jobId := Some(job.value.jobId);
      }
      this.taskId := taskId;
      ignore := false;
      complete := false;
      inProgress := false;
      this.taskInfo := taskInfo;
      nodesWorking := [];
    }

    /**
     * The status the flags encode: ignored, else completed, else claimed
     * when in progress, else assignable.
     */
    function CurrentStatus(): (s: Status)
      reads this
    {
      if ignore then Ignored
      else if complete then Completed
      else if inProgress then Claimed
      else Assignable
    }

    /** Whether this task may be offered to a render node. */
    function ShouldExecute(): (r: bool)
      reads this
      ensures r <==> !complete && !inProgress && !ignore
      ensures r <==> CurrentStatus() == Assignable
    {
      if complete then false
      else if inProgress then false
      else if ignore then false
      else true
    }

    /**
     * The record saved for this task. The job id comes from the attached
     * job, not from `jobId`; the volatile `inProgress` and `nodesWorking`
     * are not saved, so a restored task is never in progress.
     */
    function Serialize(): (r: Record)
      reads this
      requires job.Some? && taskInfo.Some?
      ensures r.Keys == TaskRecordKeys
      ensures TaskRecord(r)
      ensures r["job_id"] == Str(job.value.jobId) && r["task_id"] == Str(taskId)
      ensures r["ignore"] == Bool(ignore) && r["complete"] == Bool(complete)
      ensures r["task_info_type"] == Str(TaskInfos.InfoType(taskInfo.value))
      ensures r["task_info"] == Dict(TaskInfos.Serialize(taskInfo.value))
    {
      map[
        "job_id" := Str(job.value.jobId),
        "task_id" := Str(taskId),
        "ignore" := Bool(ignore),
        "complete" := Bool(complete),
        "task_info_type" := Str(TaskInfos.InfoType(taskInfo.value)),
        "task_info" := Dict(TaskInfos.Serialize(taskInfo.value))
      ]
    }

    /**
     * Restores the saved fields from `data`. The ids and flags are
     * overwritten first. Only the "render" type tag is recognised: for it
     * the payload becomes a fresh render payload restored from the record
     * and the task itself is returned; for any other tag the payload is
     * left as it was, the tag is reported, and `null` is returned.
     * `inProgress`, `nodesWorking` and the attached job are never touched.
     */
    method Unserialize(data: Record) returns (r: Task?, unknownTag: Option<string>)
      requires TaskRecord(data)
      modifies this
      ensures jobId == JobIdOf(data["job_id"]) && taskId == data["task_id"].s
      ensures ignore == data["ignore"].b && complete == data["complete"].b
      ensures job == old(job) && inProgress == old(inProgress) && nodesWorking == old(nodesWorking)
      ensures data["task_info_type"].s == "render" ==>
        && taskInfo == Some(TaskInfos.Unserialize(TaskInfos.NewRender(), data["task_info"].fields))
        && r == this && unknownTag == None
      ensures data["task_info_type"].s != "render" ==>
        taskInfo == old(taskInfo) && r == null && unknownTag == Some(data["task_info_type"].s)
    {
      jobId := JobIdOf(data["job_id"]);
      taskId := data["task_id"].s;
      ignore := data["ignore"].b;
      complete := data["complete"].b;

      var tag := data["task_info_type"].s;
      var restored := TaskInfos.FromTag(tag);
      if restored.Some? {
        taskInfo := restored;
      } else {
        return null, Some(tag);
      }

      taskInfo := Some(TaskInfos.Unserialize(taskInfo.value, data["task_info"].fields));
      return this, None;
    }
  }

  /**
   * Saving a task and restoring the record into a newly constructed task,
   * as a loader does. For a render payload every saved field comes back
   * (the job id is the one of the original task's job), the new task is
   * not in progress and may execute unless ignored or complete, and saving
   * it again under the same job reproduces the record. For the base
   * payload, whose tag "none" is not recognised, nothing is returned and
   * the new task keeps the payload it was constructed with.
   */
  method SerializeThenRestore(t: Task, job: Option<Job>, taskId: string, info: Option<TaskInfos.TaskInfo>)
    returns (u: Task, r: Task?, unknownTag: Option<string>)
    requires t.job.Some? && t.taskInfo.Some?
    ensures u != t && u.job == job
    ensures u.jobId == Some(t.job.value.jobId) && u.taskId == t.taskId
    ensures u.ignore == t.ignore && u.complete == t.complete
    ensures !u.inProgress && u.nodesWorking == []
    ensures u.ShouldExecute() <==> !t.ignore && !t.complete
    ensures t.taskInfo.value.Render? ==>
      && u.taskInfo == t.taskInfo && r == u && unknownTag == None
      && (job == t.job ==> u.Serialize() == t.Serialize())
    ensures t.taskInfo.value.Generic? ==>
      u.taskInfo == info && r == null && unknownTag == Some("none")
  {
    var data := t.Serialize();
    u := new Task(job, info, taskId);
    r, unknownTag := u.Unserialize(data);
    if t.taskInfo.value.Render? {
      TaskInfos.SerializeUnserialize(t.taskInfo.value);
    }
  }
}
