# Blender farm tasks, modelled in Dafny

A render farm splits a job into tasks, one per frame, and hands them to
render nodes. This project models `blenderfarm/task.py`: the task payloads
(`TaskInfo`, `TaskInfoRender`), the task object (`Task`) with its status
gate `should_execute`, and the save/restore protocol (`serialize` /
`unserialize`) through which tasks survive a restart of the server.

- `wrappers.dfy` — `Option`, for Python's `None`.
- `records.dfy` — module `Records`: the values a saved `dict` holds and the
  `dict` itself (`Record`, a map from key strings to values).
- `strings.dfy` — module `Strings`: Python's `str()` on integers, with the
  proof that different integers print differently.
- `task_info.dfy` — module `TaskInfos`: the payload as a sum type
  (`Generic` for the base class with tag "none", `Render` for the render
  payload), its tag, record, restore and result filename.
- `task.dfy` — module `Tasks`: the class `Task`, whose constructor and
  `Unserialize` update its fields in place, and the round trip of a task
  through its saved record.

Behaviours of the code that the model keeps:

- `Serialize` takes the job id from the attached job, not from the task's
  own `jobId`, and needs both a job and a payload.
- `Unserialize` overwrites the ids and flags before it looks at the type
  tag. For an unrecognised tag it leaves the payload as it was and returns
  `None` (here `null`) instead of the task.
- Restore is the inverse of save only for render payloads: the tag "none"
  that the base payload writes is not recognised on restore
  (`Tasks.Task.Unserialize`, `Tasks.SerializeThenRestore`).
- `Unserialize` never touches `inProgress` or `nodesWorking`; a restored
  task is not in progress only because a new task is constructed before
  the record is read into it.

## Model

| member | source | states |
|---|---|---|
| Tasks.Task.constructor | blenderfarm/task.py:64-91 | a new task has no flag set and no node working, takes its job id from the job when there is one (otherwise none), keeps the given payload and task id, and may execute |
| Tasks.Task.ShouldExecute | blenderfarm/task.py:93-107 | true exactly when the task is neither complete, nor in progress, nor ignored; equivalently when its status is assignable rather than ignored, completed or claimed |
| Tasks.Task.Serialize | blenderfarm/task.py:130-147 | the record has exactly the keys job_id, task_id, ignore, complete, task_info_type and task_info (never in_progress or nodes_working), its job id is the attached job's, the payload's tag and record are nested in it, and the record is always one that Unserialize accepts |
| Tasks.Task.Unserialize | blenderfarm/task.py:109-128 | ids and flags are overwritten from the record whatever the tag; for "render" the payload becomes a new render payload restored from the nested record and the task is returned; for any other tag the payload is unchanged, the tag is reported and null is returned; job, in-progress flag and working nodes are untouched |
| Tasks.SerializeThenRestore | blenderfarm/task.py:109-147 | saving a task and restoring into a new task reproduces job id, task id, ignore and complete, leaves the new task not in progress with no working nodes, so it may execute unless ignored or complete; for a render payload the payload comes back, the task is returned and saving again under the same job gives the same record; for the base payload the restore returns nothing and reports "none" |
| Tasks.JobIdOf | blenderfarm/task.py:112 | the restored job id is the record's string, or none when the record holds None |
| TaskInfos.InfoType | blenderfarm/task.py:16-17 | the tag is "render" exactly for render payloads and "none" exactly for the base payload |
| TaskInfos.NewRender | blenderfarm/task.py:30-37 | a new render payload has tag "render", resolution 1920x1080 and frame 0 |
| TaskInfos.FromTag | blenderfarm/task.py:118-124 | the dispatch on the saved type tag that Unserialize goes through: a payload is chosen for the tag "render" and for no other tag, "none" included, and the chosen payload reports that tag |
| TaskInfos.Serialize | blenderfarm/task.py:47-53 | the base payload's record is empty; a render payload's record has exactly the keys resolution and frame, holding the payload's resolution as a list of integers and its frame, in the shape a render payload restores from |
| TaskInfos.Unserialize | blenderfarm/task.py:39-45 | restoring keeps the payload's kind, the base payload ignores the record, and a restored render payload saves back to the record's resolution and frame entries |
| TaskInfos.SerializeUnserialize | blenderfarm/task.py:19-53 | restoring a payload from its own record gives the same payload (same resolution and frame for a render payload) |
| TaskInfos.ResultFilename | blenderfarm/task.py:55-56 | the filename is "result/", the job id, "/", the frame as Python prints it, and ".png" |
| TaskInfos.ResultFilenameInjective | blenderfarm/task.py:55-56 | within one job, two render payloads have the same result filename exactly when they have the same frame (resolution plays no part) |
| Strings.IntToStringInjective | blenderfarm/task.py:56 | two integers print as the same decimal string exactly when they are equal |
| Strings.NatToString | blenderfarm/task.py:56 | a non-negative integer prints as a non-empty string of decimal digits with no leading zero: "0" for zero, a first digit other than 0 otherwise |
| Strings.IntToString | blenderfarm/task.py:56 | `str()` of a frame: a minus sign exactly for negative values, then the decimal digits of the absolute value, which read back as that value and have no leading zero ("0" for zero) |
| Records.FromInts | blenderfarm/task.py:50 | a resolution is saved as a list of integers from which exactly the same resolution is read back |

## Left out

- `Task.write_result` (creating the directory and writing the bytes) is file I/O; only the filename it uses, `TaskInfos.ResultFilename`, is modelled.
- `db.generate_uuid` is a call into the database module; the new task id is a parameter of the constructor.
- The `serializable.Serializable` base class is not part of this model; its `serialize` is taken to return an empty record and its `unserialize` to do nothing, as the subclasses rely on.
- The diagnostic printed for an unknown tag is modelled as the returned tag (`unknownTag`), not as output; the `print` in `write_result` is left out with it.
- Missing keys and values of the wrong type in a saved record (Python's `KeyError`/`TypeError`) are excluded by the preconditions `Tasks.TaskRecord` and `TaskInfos.RenderRecord`; Python itself would store a value of any type.
- `TaskInfos.Unserialize`: the payload objects are values here. `TaskInfoRender.unserialize` updates the payload object in place and returns it; the model returns the updated value and `Task.Unserialize` stores it, so aliasing of one payload object between tasks is not captured.
- `TaskInfos.ResultFilename`: the payload's back-reference to its task (`self.task.job.job_id`) is replaced by the job id passed in; `os.path.join` is modelled as joining with "/", so its platform separator and its dropping of earlier parts when the job id is an absolute path are not modelled, nor are an empty job id (Python gives "result/5.png", the model "result//5.png") and a job id ending in "/" (Python gives "result/J1/5.png" for "J1/", the model "result/J1//5.png").
- The job is a value holding its id; a job object whose id changes after the task was created is not modelled.
- Claiming, releasing, completing, claim timeouts and locking have no code in this file, so no transitions of `inProgress` or `nodesWorking` are modelled.
