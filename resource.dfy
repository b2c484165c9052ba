/**
 * The generic get and list commands shared by every resource kind. A
 * command looks its manager up on the client by name, calls it, renders
 * what it returns and emits the rendering once. What a run emits is
 * returned as a transcript, and an exception that escapes the command is
 * returned beside it; an escaping exception means nothing was emitted.
 */
module Resource {
  import opened Wrappers
  import opened Client
  import opened Utils

  /** One emission: click.echo of a text, or click.echo_via_pager of a table. */
  datatype Output = Echo(text: string) | Pager(table: Table)

  /** What get shows in place of an object when the client reports a bad request. */
  const NotFound: string := "not found"

  /**
   * generic_get_command: get `id` from the manager named `managerName` and
   * echo its field list; a bad request is shown as "not found", and every
   * other exception escapes without output.
   */
  method GenericGetCommand(session: Session, managerName: string, attrs: seq<string>, id: Id)
    returns (emitted: seq<Output>, raised: Option<Exception>)
    ensures raised.None? ==> |emitted| == 1
    ensures raised.Some? ==> emitted == []
    ensures managerName !in session ==> raised == Some(AttributeError(managerName))
    ensures managerName in session ==>
              var reply := session[managerName].get(id);
              && (reply.Success? && HasAll(reply.value, attrs) ==>
                    raised.None? && emitted == [Echo(GenerateListDisplay(reply.value, attrs))])
              && (reply.Success? && !HasAll(reply.value, attrs) ==>
                    raised == Some(AttributeError(MissingAttribute(reply.value, attrs).value)))
              && (reply == Failure(BadHttpRequestError) ==>
                    raised.None? && emitted == [Echo(NotFound)])
              && (reply.Failure? && reply.error != BadHttpRequestError ==>
                    raised == Some(reply.error))
  {
    var output: string;
    if managerName !in session {
      return [], Some(AttributeError(managerName));
    }
    var manager := session[managerName];
    var reply := manager.get(id);
    match reply {
      case Success(obj) =>
        var missing := MissingAttribute(obj, attrs);
        if missing.Some? {
          return [], Some(AttributeError(missing.value));
        }
        output := GenerateListDisplay(obj, attrs);
      case Failure(BadHttpRequestError) =>
        output := NotFound;
      case Failure(e) =>
        return [], Some(e);
    }
    emitted, raised := [Echo(output)], None;
  }

  /**
   * generic_list_command: merge the filters, list the matching objects
   * from the manager named `managerName` and page their table. Nothing is
   * caught: a filter, lookup or manager exception escapes without output,
   * a bad request included.
   */
  method GenericListCommand(session: Session, managerName: string, attrs: seq<string>,
                            filters: Option<Decoded>, filtersFile: Option<Decoded>)
    returns (emitted: seq<Output>, raised: Option<Exception>)
    ensures raised.None? ==> |emitted| == 1
    ensures raised.Some? ==> emitted == []
    ensures CombinedFilters(filters, filtersFile).Failure? ==>
              raised == Some(CombinedFilters(filters, filtersFile).error)
    ensures CombinedFilters(filters, filtersFile).Success? && managerName !in session ==>
              raised == Some(AttributeError(managerName))
    ensures CombinedFilters(filters, filtersFile).Success? && managerName in session ==>
              var reply := session[managerName].list(CombinedFilters(filters, filtersFile).value);
              && (reply.Success? && AllHave(reply.value, attrs) ==>
                    raised.None? && emitted == [Pager(GenerateTable(reply.value, attrs))])
              && (reply.Success? && !AllHave(reply.value, attrs) ==>
                    raised == Some(AttributeError(MissingInAny(reply.value, attrs).value)))
              && (reply.Failure? ==> raised == Some(reply.error))
  {
    var combined := CombineFilterJson(filters, filtersFile);
    if combined.Failure? {
      return [], Some(combined.error);
    }
    if managerName !in session {
      return [], Some(AttributeError(managerName));
    }
    var manager := session[managerName];
    var reply := manager.list(combined.value);
    if reply.Failure? {
      return [], Some(reply.error);
    }
    var objects := reply.value;
    var missing := MissingInAny(objects, attrs);
    if missing.Some? {
      return [], Some(AttributeError(missing.value));
    }
    var output := GenerateTable(objects, attrs);
    emitted, raised := [Pager(output)], None;
  }
}
