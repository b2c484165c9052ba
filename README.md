# saltant-cli: filter merging, presenters and the generic get/list commands

This project models the reusable core of the saltant command-line client,
the layer that every resource kind (task queues, task whitelists, task types,
task instances) shares:

- **Filter merging** (`combine_filter_json`). A list command can take inline
  JSON filters and a filters file. The merge starts from an empty dictionary,
  updates it with the inline filters and then with the file. So the file wins
  on a shared key, and either source failing fails the whole command.
- **Presenters.** `generate_table` turns a list of objects into a header row
  (the attribute names) and one row of attribute values per object.
  `generate_list_display` turns one object into one `name: value` line per
  attribute. The name is in bold, the lines keep the attribute order, and
  they are joined by newlines.
- **Generic commands.** `generic_get_command` looks up a manager on the
  client by name, gets one object and echoes its field list. A
  `BadHttpRequestError` is shown as `not found`, and every other exception
  escapes. `generic_list_command` merges the filters, lists the objects and
  pages their table. It catches nothing.

Modules: `Wrappers` (Option, Result), `Client` (JSON values, remote objects,
exceptions and the managers of the remote client, as seen by the commands),
`Utils` (utils.py), `Resource` (resource.py), and `Bindings` (attribute lists
of some resource kinds, with worked scenarios).

Modelling choices:
- JSON decoding and opening the filters file are inputs. Each filter source
  is `None` when not given, or the decoded value, or the exception raised
  while reading or decoding it.
- A remote object is a map from attribute name to its `%s`-rendered value.
  A manager is a pair of functions, from an id and from criteria to a reply.
  The client is a map from manager name to manager.
- The presenters require every attribute to exist, as `getattr` raises
  otherwise. The commands model that raise: the first missing attribute
  escapes as an `AttributeError`, since neither command catches it.
- Looking up a manager name the client lacks escapes as an `AttributeError`.
  It happens inside get's `try`, but that `try` only catches
  `BadHttpRequestError`.
- A command returns what it emitted (a transcript of echo/pager outputs) and
  the exception that escaped, if any.
- `click.style(attr, bold=True)` is the attribute between the ANSI codes
  `ESC[1m` and `ESC[0m`, as click writes them.

Errors and messages, as the code has them:
- A failed merge raises Python's own exceptions: a JSON decode error, an
  open error, a `TypeError` or a `ValueError`. There are no dedicated filter
  error types.
- `dict.update` accepts any decoded value it can iterate. An object is merged
  as a mapping. An array is read as a sequence of key/value pairs, the last
  pair with a key deciding its value. The empty string changes nothing. Any
  other string, and any pair element of the wrong length, raises
  `ValueError`. A number, boolean or null raises `TypeError`, and so does
  a pair whose key is an array or an object (it is unhashable).
- get shows the literal `not found`, without the id.

## Model

| member | source | states |
|---|---|---|
| `Utils.Update` | saltant_cli/subcommands/utils.py:63-68 | dict.update: the keys are the union; a key of the update takes its value; other keys keep theirs |
| `Utils.UpdatePairs` | saltant_cli/subcommands/utils.py:64 | dict.update with a sequence of pairs: the keys are the old keys plus the pairs' keys; the last pair with a key decides its value; keys no pair names keep their value |
| `Utils.UpdatePairsIsUnion` | saltant_cli/subcommands/utils.py:64 | storing pairs one by one into a dict equals merging the dict built from those pairs over it |
| `Utils.ItemPair` | saltant_cli/subcommands/utils.py:64 | a sequence element is a pair only if it is iterable with two items: not iterable raises TypeError, the wrong length raises ValueError, a two-character string is its two characters, a two-item array with a string first is that key and value |
| `Utils.ItemPairs` | saltant_cli/subcommands/utils.py:64 | all elements read as pairs, in order, one pair per element; otherwise the exception of the first element that is not a pair |
| `Utils.DictUpdate` | saltant_cli/subcommands/utils.py:64 | d.update(value): an object merges as a mapping; an array merges its pairs in order; the empty string changes nothing; another string raises ValueError; a number, boolean or null raises TypeError |
| `Utils.DictUpdateIsUnion` | saltant_cli/subcommands/utils.py:68 | updating a non-empty dict raises exactly when updating an empty one does, with the same exception, and otherwise merges that result over it |
| `Utils.Contribution` | saltant_cli/subcommands/utils.py:63-68 | an absent source adds nothing; a source that failed to read or decode raises its own exception; an object contributes its members |
| `Utils.CombinedFilters` | saltant_cli/subcommands/utils.py:61-70 | no sources gives the empty map; inline only gives the inline map; keys are the union, the file's value wins on a shared key, inline-only keys keep the inline value; any failing source fails the whole merge with no partial map, the inline source's error first |
| `Utils.CombineFilterJson` | saltant_cli/subcommands/utils.py:49-70 | the step-by-step in-place updates compute exactly the merge specified by CombinedFilters, including its error cases |
| `Utils.MissingAttribute` | saltant_cli/subcommands/utils.py:104 | none is reported exactly when every attribute exists on the object; otherwise the first attribute in order whose getattr raises |
| `Utils.MissingInAny` | saltant_cli/subcommands/utils.py:86 | none is reported exactly when every object has every attribute; otherwise the missing attribute of the first object that lacks one |
| `Utils.Project` | saltant_cli/subcommands/utils.py:86 | one value per attribute, value j being the object's attribute j |
| `Utils.Rows` | saltant_cli/subcommands/utils.py:86 | one row per object, in object order, row i being object i's projection |
| `Utils.GenerateTable` | saltant_cli/subcommands/utils.py:73-88 | headers equal the attributes; exactly one row per object (none for no objects); every row has one cell per attribute; cell (i, j) is object i's attribute j |
| `Utils.Bold` | saltant_cli/subcommands/utils.py:104 | the text unchanged between the bold and reset codes, and free of newlines when the text is |
| `Utils.DisplayLines` | saltant_cli/subcommands/utils.py:103-105 | one line per attribute, in attribute order; line k is the bold name of attribute k, ": " and its value |
| `Utils.Join` | saltant_cli/subcommands/utils.py:103 | no parts join to the empty text; otherwise the text starts with the first part and ends with the last part |
| `Utils.SplitJoin` | saltant_cli/subcommands/utils.py:103 | splitting a newline join of newline-free lines gives back exactly those lines |
| `Utils.JoinSplit` | saltant_cli/subcommands/utils.py:103 | joining the newline-separated pieces of any text rebuilds the text |
| `Utils.GenerateListDisplay` | saltant_cli/subcommands/utils.py:91-106 | no attributes give the empty text; otherwise it starts with the first attribute's line and ends with the last attribute's line |
| `Utils.ListDisplayLines` | saltant_cli/subcommands/utils.py:103-106 | read back line by line, the field list has exactly one line per attribute, and line k is attribute k's bold name, ": " and value |
| `Utils.ListDisplayNoTrailingNewline` | saltant_cli/subcommands/utils.py:103-106 | the last character is the last value's last character, or the space after the colon when that value is empty; so there is no trailing newline unless the value ends with one |
| `Utils.ListDisplayIgnoresOtherFields` | saltant_cli/subcommands/utils.py:104 | two objects that agree on the listed attributes display identically, whatever their other fields |
| `Resource.GenericGetCommand` | saltant_cli/subcommands/resource.py:15-43 | the id goes unchanged to the named manager's get; success echoes exactly the field list; a BadHttpRequestError echoes exactly "not found" and does not escape; a missing manager or attribute and every other exception escape; a run that does not raise echoes exactly once, one that raises emits nothing |
| `Resource.GenericListCommand` | saltant_cli/subcommands/resource.py:46-79 | exactly the merged filters go to the named manager's list; success pages exactly the table of the returned objects, once; filter, lookup, attribute and manager exceptions, BadHttpRequestError included, all escape with no output |
| `Bindings.FilterMergeScenario` | saltant_cli/subcommands/utils.py:61-70 | inline {"active": true} and file {"active": false, "name": "x"} merge to {"active": false, "name": "x"} |
| `Bindings.NonObjectFilterScenario` | saltant_cli/subcommands/utils.py:63-64 | inline filters "" give no criteria, "ab" raises ValueError, 3 raises TypeError, and [["active", true]] gives {"active": true} |
| `Bindings.FilterFileErrorScenario` | saltant_cli/subcommands/utils.py:66-68 | a filters file that cannot be opened fails the merge even when the inline filters decode |
| `Bindings.EmptyTaskQueueTableScenario` | saltant_cli/subcommands/task_queues.py:15-22 | listing no task queues gives the six task-queue list headers and no rows |
| `Bindings.ListDisplayScenario` | saltant_cli/subcommands/utils.py:103-106 | attributes id and name of {id: 7, name: q, extra: 1} display as the two lines "id: 7" and "name: q" (names in bold), without extra |

`Bindings.BadRequestScenario` runs both commands against a manager that
refuses every request with a bad request. get echoes `not found`, while list
lets the same exception escape.

## Left out

- `PythonLiteralOption` and `list_options` (utils.py:12-46): option parsing and registration in the click framework.
- The click command bindings of each resource kind. Only a few attribute lists appear, as constants for the scenarios.
- `generic_create_command` and `generic_put_command`: task_queues.py and task_whitelists.py import them, but resource.py does not define them. No file here has clone, terminate or wait commands.
- JSON decoding and file reading: foreign parsing and I/O, taken as decoded-or-failed inputs.
- JSON numbers are integers only; floating point is not modelled.
- Utils.ItemPair: a pair whose key is a JSON number, true, false or null, and a pair read from a two-member JSON object, are reported as `Unrepresentable`, which is not an exception of the program. Python stores a non-string key, and iterates an object's keys in member order. The criteria here have string keys only, and JSON objects do not keep member order. Two consequences follow. The merge stops at the first such pair with `Unrepresentable`, even when Python would store that pair and raise on a later element: for inline filters `[[1, "x"], "abc"]`, Python raises `ValueError`. And a list command given `[[1, "x"]]` reports `Unrepresentable` as an escaping exception, where Python would list with the key 1.
- Utils.GenerateTable: returns the headers and rows handed to `tabulate`, not the column-aligned text `tabulate` builds from them. The cells are the attribute values rendered by `%s`. `tabulate` receives the raw values and formats them itself, for instance showing None as an empty cell, where `%s` gives "None".
- Resource.GenericListCommand: the pager output is the table value. Whether click pages it or prints it directly is not modelled.
- click.echo removing ANSI styling when the output is not a terminal is not modelled; the bold codes are always part of the text.
- Reading the client from the click context (`ctx.obj['client']`) is not modelled. The client is passed in directly.
- The remote client and its HTTP transport: each manager is an abstract function from its argument to its reply.
- Utils.MissingAttribute: the message of Python's AttributeError is not modelled; only the missing attribute's name is kept.
- main.py (configuration loading, version flag), completion.py, users.py and setup.py: I/O, framework wiring and packaging.
