/**
 * Attribute lists of some resource kinds' commands, and worked scenarios
 * of the filter merge, the presenters and the get/list error policy on them.
 */
module Bindings {
  import opened Wrappers
  import opened Client
  import opened Utils
  import opened Resource

  const TaskQueueListAttrs: seq<string> := ["id", "user", "name", "private", "active", "description"]
  const TaskQueueGetAttrs: seq<string> :=
    ["id", "user", "name", "description", "private", "runs_executable_tasks",
     "runs_docker_container_tasks", "runs_singularity_container_tasks", "active"]
  const TaskWhitelistGetAttrs: seq<string> :=
    ["id", "user", "name", "description", "whitelisted_container_task_types", "whitelisted_executable_task_types"]

  /** Inline {"active": true} and file {"active": false, "name": "x"} merge to the file's view. */
  lemma FilterMergeScenario()
    ensures CombinedFilters(Some(Success(JObject(map["active" := JBool(true)]))),
                            Some(Success(JObject(map["active" := JBool(false), "name" := JString("x")]))))
            == Success(map["active" := JBool(false), "name" := JString("x")])
  {
    var inline := map["active" := JBool(true)];
    var file := map["active" := JBool(false), "name" := JString("x")];
    assert Contribution(Some(Success(JObject(inline)))) == Success(inline);
    assert Contribution(Some(Success(JObject(file)))) == Success(file);
    assert Update(inline, file) == file;
  }

  /** A file that cannot be opened fails the merge even when the inline filters are fine. */
  lemma FilterFileErrorScenario()
    ensures CombinedFilters(Some(Success(JObject(map["active" := JBool(true)]))),
                            Some(Failure(FileOpenError("filters.json"))))
            == Failure(FileOpenError("filters.json"))
  {
  }

  /**
   * Inline filters that decode to something other than an object go through
   * dict.update's sequence path: "" changes nothing, "ab" raises ValueError,
   * and [["active", true]] is read as one key/value pair.
   */
  lemma NonObjectFilterScenario()
    ensures CombinedFilters(Some(Success(JString(""))), None) == Success(map[])
    ensures CombinedFilters(Some(Success(JString("ab"))), None) == Failure(ValueError)
    ensures CombinedFilters(Some(Success(JNumber(3))), None) == Failure(TypeError)
    ensures CombinedFilters(Some(Success(JArray([JArray([JString("active"), JBool(true)])]))), None)
            == Success(map["active" := JBool(true)])
  {
  }

  /** Listing no task queues gives a table of the six list headers and no rows. */
  lemma EmptyTaskQueueTableScenario()
    ensures GenerateTable([], TaskQueueListAttrs) == Table(TaskQueueListAttrs, [])
    ensures |GenerateTable([], TaskQueueListAttrs).headers| == 6
  {
  }

  /** Displaying id and name of {id: 7, name: q, extra: 1} gives two lines and ignores extra. */
  lemma ListDisplayScenario()
    ensures GenerateListDisplay(map["id" := "7", "name" := "q", "extra" := "1"], ["id", "name"])
            == Bold("id") + ": 7\n" + Bold("name") + ": q"
  {
  }

  /**
   * The same bad-request reply is shown as "not found" by get and escapes
   * from list.
   */
  method BadRequestScenario(id: Id, filters: Option<Decoded>)
    requires filters.None? || filters == Some(Success(JObject(map[])))
  {
    var refusing := Manager(_ => Failure(BadHttpRequestError), _ => Failure(BadHttpRequestError));
    var session := map["task_queues" := refusing];
    var emitted, raised := GenericGetCommand(session, "task_queues", TaskQueueGetAttrs, id);
    assert emitted == [Echo(NotFound)] && raised.None?;
    emitted, raised := GenericListCommand(session, "task_queues", TaskQueueListAttrs, filters, None);
    assert emitted == [] && raised == Some(BadHttpRequestError);
    emitted, raised := GenericGetCommand(session, "task_whitelists", TaskWhitelistGetAttrs, id);
    assert emitted == [] && raised == Some(AttributeError("task_whitelists"));
  }
}
