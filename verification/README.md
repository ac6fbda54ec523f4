# protobix `DataContainer` in Dafny

A model of the `DataContainer` class of python-protobix, the accumulator that
collects Zabbix measurements and ships them to a Zabbix server.

**Modes.** A container works in one of two modes, set through its `data_type`:

- `items`: plain item values;
- `lld`: low-level-discovery data, whose values are wrapped as the JSON text
  of `{"data": value}`.

**Operations.**

- `add_item` and `add` append measurement records to a pending list.
- `send` hands the pending list to the transport:
  - one record per call at debug level 4 and up;
  - otherwise all records at once.
- `send` reduces every answer with `_handle_response` into a result log entry:
  - the four numbers the server acknowledges, found with the regular
    expression `ZBX_RESP_REGEX`;
  - or a placeholder when the server gave no answer.

**Modules.**

- `Wrappers`: `Option` and `Result`.
- `Seqs`: where a sequence occurs inside another, and regrouping of concatenations.
- `Digits`: Python's `str(n)` for natural numbers, and greedy `\d+`.
- `Json`: the text Python's `json.dumps` produces for the values a
  measurement carries, plus a decoder.
  - `WrapData` is the `lld` wrapping.
  - The decoder proves the wrapping loses nothing: `UnwrapWrapData` and
    `WrapDataInjective`.
- `AckPattern`: `ZBX_RESP_REGEX`.
  - `MatchAt` models the regular-expression engine at one position.
  - `Search` is `re.findall(...)[0]`, the leftmost match.
  - `AckText` is a declarative grammar of the texts the pattern accepts.
  - Lemmas tie the three together, and both server dialects quoted in the
    source are shown to give their four numbers.
- `Container`: the object as an immutable `State`, and every method as a
  function from state to state.
  - An exception is an `Err`; a raised exception leaves the object as it was
    at the point of the raise.
  - `_send_to_zabbix` is a parameter `tr` of type `Transport`: the answer to
    the k-th transmission of a payload.
  - The clock is a parameter.
  - `Send` reports whether the socket was closed.

Two behaviours of the code worth knowing:

- **Exceptions inside `send`.** An answer that cannot be reduced raises inside
  `send`:
  - `IndexError` when `info` holds no acknowledgement;
  - `TypeError` when `info` is missing;
  - `UnboundLocalError` when `response` is not `success`;
  - likewise, a transport that raises.

  The exception propagates, because there is no `try`/`finally`. The pending
  list and the mode are not reset, the socket is not closed, and the result
  log keeps the entries appended before the failure.
- **Unchecked constructor mode.** The constructor stores any truthy
  `data_type` without checking it; only the setter validates. `add_item` then
  rejects an unknown mode.

## Model

| member | source | states |
|---|---|---|
| Container.Init | protobix/datacontainer.py:48-58 | each agent setting is replaced by its argument only when that argument is truthy, and the log file whenever the argument is not `None`; dry-run is stored unconditionally; a truthy `data_type` is stored unchecked as the mode that string names, which `add_item` can use exactly when it is `items` or `lld`; the lists start empty |
| Container.ModeOf | protobix/datacontainer.py:69 | the mode read from a `data_type` string names that string back; it is a known mode exactly when the string is `items` or `lld` |
| Container.SetDataType | protobix/datacontainer.py:66-78 | succeeds exactly for `items` and `lld`, then stores that mode and empties both the pending list and the result log, leaving the agent settings alone; any other value is the `ValueError` |
| Container.MakeItem | protobix/datacontainer.py:100-105 | the record carries the given host, key and clock; in `items` mode the value as given, in `lld` mode the string `json.dumps({"data": value})` |
| Container.AddItem | protobix/datacontainer.py:97-110 | succeeds exactly in a known mode, otherwise `ValueError`; appends one record and leaves the earlier ones unchanged; host, key and clock are the arguments, the clock defaulting to the container's clock; in `items` mode the value is unchanged; in `lld` mode the value is the text `json.dumps({"data": value})`, which decodes back as `{"data": value}` |
| Container.Add | protobix/datacontainer.py:112-116 | `add` equals the independent description over the triples it selects, and its only exception is the `ValueError` of `add_item` |
| Container.AddOutcomeOfSelected | protobix/datacontainer.py:112-116 | by induction over the hosts and then the keys, the loops of `add` equal an independent description over the triples it selects: unchanged when nothing is selected, the `ValueError` when something is selected and the mode is unusable, and otherwise one record per selected triple appended in order |
| Container.SelectedMembers | protobix/datacontainer.py:113-115 | a (host, key, value) triple is passed to `add_item` exactly when it is an entry of the data whose value is not the empty list |
| Container.FalsyValuesKept | protobix/datacontainer.py:115 | an empty string and zero are still added; only `[]` is skipped |
| Container.AddExtends | protobix/datacontainer.py:112-116 | in a known mode `add` never raises, and it extends the pending list by the records made from the selected triples, in order, with consecutive clock readings |
| Container.AddKeepsConsistent | protobix/datacontainer.py:103-116 | in `lld` mode, if every pending value was a wrapped document before `add`, it still is after |
| Container.AddItemKeepsConsistent | protobix/datacontainer.py:97-110 | `add_item` keeps every pending value of an `lld` container a wrapped document |
| Container.ResetsKeepConsistent | protobix/datacontainer.py:66-162 | the setter and `send` keep it too: the setter empties the pending list, and `send` either unsets the mode or raises with the list and the mode as they were |
| Container.HandleResponse | protobix/datacontainer.py:164-176 | the placeholder is given exactly for no answer, counting 1 at debug level 4 and up and the pending-list length otherwise; an answer whose response is not `success` is the `UnboundLocalError`; a `success` answer without `info` is the `TypeError`; a reported result is a well-formed acknowledgement (three digit runs and a decimal) |
| Container.AckStrings | protobix/datacontainer.py:173-175 | the Python value of an entry: a reported entry is its four captures in the order of the pattern's groups, a placeholder is `['d', 'd', str(n)]`, its last string a digit run without a leading zero that reads back as `n` |
| Container.ReportedStrings | protobix/datacontainer.py:170-173 | the value returned for a `success` answer is the tuple of groups of the leftmost match of the pattern in its `info` |
| Container.AckStringsInjective | protobix/datacontainer.py:173-175 | different entries have different Python values, so the placeholder count is recoverable from its text |
| Container.HandleResponseReduces | protobix/datacontainer.py:170-173 | a `success` answer reduces exactly when some position of its `info` holds an acknowledgement |
| Container.HandleResponseSuccess | protobix/datacontainer.py:170-173 | a successful answer reduces to an acknowledgement that matches at some position of `info` with no match at any earlier position, and it is the `IndexError` exactly when no position of `info` matches |
| Container.HandleAcknowledgement | protobix/datacontainer.py:170-173 | every text the pattern describes, in any mix of the two spellings, reduces to the four strings it carries |
| Container.HandleZabbix20 | protobix/datacontainer.py:170-173 | the Zabbix 1.8/2.0 acknowledgement gives `0`, `1`, `1`, `0.000057` |
| Container.HandleZabbix22 | protobix/datacontainer.py:170-173 | the Zabbix 2.2/2.4 acknowledgement gives `50`, `1000`, `1050`, `0.09957` |
| Container.SendEach | protobix/datacontainer.py:123-140 | the debug loop transmits at most the remaining items; without an exception it transmits all of them and logs one result each; with one it has transmitted exactly one payload more than it logged |
| Container.SendEachFault | protobix/datacontainer.py:123-140 | the debug loop ends without an exception exactly when every transmission it made returned an answer that reduces |
| Container.SendEachLastFault | protobix/datacontainer.py:123-140 | when the debug loop raises, the exception is that of its last transmission: the transport's, or the reduction's of its answer |
| Container.SendBatch | protobix/datacontainer.py:141-157 | outside debug mode the whole pending list goes out in one transmission; one result is logged when its answer reduces and none when the transmission or the reduction raises, which is then the exception |
| Container.TransmitFault | protobix/datacontainer.py:120-157 | in either branch, the transmissions of `send` end in an exception exactly when one of them raises or fails to reduce, and then in the exception of the last one |
| Container.SendEachLog | protobix/datacontainer.py:123-140 | the payloads of the debug loop are the pending records in list order, and each logged result is the reduction of the answer to the transmission at the same position |
| Container.Send | protobix/datacontainer.py:118-162 | `send` raises exactly when a transmission raises or its answer does not reduce, and then with that last transmission's exception; when nothing raises, N pending items give N single-record transmissions in list order and N results at debug level 4 and up, and otherwise exactly one transmission of the whole list and one result; each result is the reduction of the answer to the transmission at its position; afterwards the pending list is empty, the mode unset and the socket closed exactly when not in dry-run mode; on an exception the pending list and mode are kept and the socket stays open |
| Container.Web1Round | protobix/datacontainer.py:112-162 | for host `web1`, two measurements and an empty list added in `items` mode and sent outside debug mode to a server that gives no answer: one transmission of the two records, the single result `['d', 'd', '2']`, and an empty container afterwards |
| Json.WrapData | protobix/datacontainer.py:105 | the `lld` value is the text `{"data": ` followed by the JSON text of the value and `}` |
| Json.WrapDataLiteral | protobix/datacontainer.py:105 | with the key written out, the `lld` text is literally `{"data": ` followed by the value's JSON text and `}` |
| Json.UnwrapWrapData | protobix/datacontainer.py:105 | decoding the wrapped text as a one-entry dictionary with key `data` gives back the value |
| Json.WrapDataInjective | protobix/datacontainer.py:105 | different values never produce the same wrapped text |
| Json.DecodeDumps | protobix/datacontainer.py:105 | `Dumps`, the model of `json.dumps`, loses nothing: the decoder reads back every value from its `json.dumps` text |
| Json.DumpsInjective | protobix/datacontainer.py:105 | `json.dumps` maps different values to different texts |
| Json.ValueRoundTrip | protobix/datacontainer.py:105 | a value's text followed by anything that may follow a value decodes to the value and leaves that rest |
| Json.QuoteRoundTrip | protobix/datacontainer.py:105 | a string literal, with every escape the encoder writes (including surrogate pairs above U+FFFF), reads back as the string |
| Json.IntRoundTrip | protobix/datacontainer.py:105 | an integer's decimal text, with its sign, reads back as the integer when no digit follows |
| Digits.ValueOfNatText | protobix/datacontainer.py:175 | reading `str(n)` back gives `n` |
| Digits.NatTextInjective | protobix/datacontainer.py:175 | different counts give different placeholder texts |
| AckPattern.MatchAtIff | protobix/datacontainer.py:19 | `MatchAt`, the regular-expression engine at one start position, succeeds at a position with four captures exactly when the text there is one the pattern describes with those captures, in some spelling, not followed by a digit |
| AckPattern.FieldsAtIff | protobix/datacontainer.py:19 | a run of fields is matched with given captures exactly when the text is that run rendered in some spelling and the captures have the shapes the fields demand |
| AckPattern.RenderIff | protobix/datacontainer.py:19 | field by field, the described text is the concatenation of the labelled fields, each capture of the right shape |
| AckPattern.SearchLeftmost | protobix/datacontainer.py:172-173 | `Search`, the model of `re.findall(...)[0]`: when a result is found it matches at some position and nothing matches earlier; nothing is found exactly when no position matches |
| AckPattern.LeftmostBound | protobix/datacontainer.py:172-173 | any match makes the search succeed at or before its position |
| AckPattern.SearchAckText | protobix/datacontainer.py:15-19 | searching a described text finds its own four strings |
| AckPattern.WellFormedIff | protobix/datacontainer.py:19 | a capture is well formed exactly when the first three strings are digit runs and the last is digits, a dot and digits |
| AckPattern.Zabbix20Acknowledgement | protobix/datacontainer.py:15-19 | the capitalised form without colons or semicolons gives its four numbers |
| AckPattern.Zabbix22Acknowledgement | protobix/datacontainer.py:17-19 | the lower-case form with colons and semicolons gives its four numbers |

## Left out

- The transport `_send_to_zabbix`, the socket and the wire framing: they live in senderprotocol.py, which is not part of this model. A transmission is the parameter `tr`, and closing the socket is the `closed` flag of `Sent`.
- The clock `self.clock` (also in senderprotocol.py): a parameter, read once per record.
- Parsing the agent configuration file (zabbixagentconfig.py is not part of this model): its settings are the record `AgentConfig`.
- Logging, the `logger` property and its setter's `isinstance` check: diagnostics only, and no message changes any state.
- The `log_output` property: it reads a key that is never set.
- The `output` argument of `_handle_response` and the log texts built in `send`: used only for logging.
- `self.data = None` in `send`: an attribute nothing else reads.
- The class-level `_items_list` shared by instances that never set their own list: the model gives every container its own pending list.
- Container.Init: a `data_type` argument that is not a string is not modelled, nor is an argument whose truthiness is that of a non-string, non-integer Python object.
- Container.HandleResponse: an answer is either falsy, which covers `None`, `0` and an empty dictionary, or a dictionary whose `response` and `info` entries are strings or absent. An `info` of another type is not modelled.
- Json: floating-point values are not modelled (a measurement value is `null`, a boolean, an integer, a string, a list or a dictionary with string keys).
- Json: `json.dumps` is modelled with its default settings only.
- AckPattern: `\d` is modelled as the ASCII digits `0`-`9`, not as every Unicode decimal digit that Python 3's `re` accepts in a `str` pattern.
- Container.SendEach: a transport that raises is recorded as a transport fault. The kind of exception it raises is not modelled.
