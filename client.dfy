/**
 * The interface of the remote saltant client as the command layer sees it:
 * JSON filter values, remote objects, the exceptions that can reach a
 * command, and the per-resource-kind managers reached by name.
 * The client itself (HTTP, sessions, retries) is not modelled; a manager
 * is only the function from its argument to the reply it gives.
 */
module Client {
  import opened Wrappers

  /** A decoded JSON value, as json.loads / json.load produce it. */
  datatype Json =
    | JNull
    | JBool(b: bool)
    | JNumber(n: int)
    | JString(s: string)
    | JArray(items: seq<Json>)
    | JObject(members: map<string, Json>)

  /** Filter criteria sent to a manager's list call: filter key to value. */
  type Criteria = map<string, Json>

  /**
   * A remote object as the presenters read it: attribute name to the
   * attribute's value already rendered by "%s".
   */
  type RemoteObject = map<string, string>

  /** The primary identifier of an object: an integer id or a UUID string. */
  datatype Id = IntId(n: int) | UuidId(uuid: string)

  /** The exceptions that can reach, or pass through, a command. */
  datatype Exception =
      /** saltant.exceptions.BadHttpRequestError: the object is missing or the id is malformed. */
    | BadHttpRequestError
      /** Any other failure raised by the client (server error, connection failure, ...). */
    | ClientError(description: string)
      /** getattr on an attribute that does not exist; carries its name. */
    | AttributeError(name: string)
      /** json.loads / json.load on text that is not JSON. */
    | JsonDecodeError
      /** open() on a filters file that cannot be read; carries the path. */
    | FileOpenError(path: string)
      /** dict.update given a value it cannot iterate, or a pair whose key is unhashable. */
    | TypeError
      /** dict.update given a sequence element that is not of length two. */
    | ValueError
      /**
       * Not an exception of the program: marks a dict.update whose result
       * has a key the criteria cannot hold (a JSON number, boolean or null
       * as key), or a pair read from a two-member JSON object, whose member
       * order is not kept here.
       */
    | Unrepresentable

  /** One resource kind's manager: what it replies to get(id) and to list(criteria). */
  datatype Manager = Manager(
    get: Id -> Result<RemoteObject, Exception>,
    list: Criteria -> Result<seq<RemoteObject>, Exception>)

  /** The connected client: its managers, by the attribute name they live under. */
  type Session = map<string, Manager>
}
