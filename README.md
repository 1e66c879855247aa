# Fluent CRM contact manager: verified model of its data transformations

The contact manager is a single-page Streamlit application over the
FluentCRM REST API. Around its UI and HTTP calls it holds four small
pieces of data transformation. This project models them in Dafny and
proves what they guarantee:

- **n8n workflow export** (`N8nExport`, `n8n.dfy`). `convert_to_n8n`
  turns the selected contacts into an n8n document. There is one
  `n8n-nodes-base.set` node per contact, with id `contact_<i>`, position
  `[i*300, 300]` and four string parameters (`id`, `email`, `full_name`,
  `status`). A connection runs from every node to the next one.
- **Custom-field answers** (`CustomFields`, `custom_fields.dfy`). The
  create-contact form goes through the server's custom-field
  descriptions. For each field of type `text`, `select-one`, `radio` or
  `checkbox`, the widget's answer is stored under the field's slug.
- **Create-contact submission** (`ContactPayload`, `payload.dfy`). An
  empty email rejects the submission. Otherwise the body of the POST is
  built key by key.
- **Export selection** (`ExportSelection`, `selection.dfy`). The contacts
  whose id was picked in the export multi-select are kept, in contact
  order.

`values.dfy` (`Values`) holds the shared pieces. These are the JSON value
type, `dict.get`, and Python's `str()` for the values that get rendered
into text, including decimal rendering of integers.

The two imperative loops and the step-by-step dictionary build are
methods. Each method's postcondition ties its result to a specification
function (`NodeFor`/`IsChainFor`, `CustomValuesOf`) or states the result
outright (`AssembleSubmission`). Lemmas about those functions state the
guarantees. The selection filter is a list comprehension in the source,
so here it is a function.

The model follows the code as written:

- Contacts are fetched in one request (`per_page=100`) with no pagination,
  caching, id validation or de-duplication.
- The email check is a plain emptiness test with no trimming.
- The twelve always-present body keys are sent even when empty.
- `custom_values` is sent whenever the dictionary has a key, with empty
  answers included.
- Node parameter values are the contact's raw values, not coerced to
  strings. Only the node name goes through `str()`.

## Model

| member | source | states |
|---|---|---|
| N8nExport.ConvertToN8n | app.py:134-178 | the document has one node per contact, in contact order, and node i is `NodeFor(i, contacts[i])`; the connections are keyed by exactly `contact_0 … contact_{n-2}`, and `contact_i` leads to `contact_{i+1}` through `{"main": [[{node, "main", 0}]]}` |
| N8nExport.NodeShape | app.py:141-170 | node i has id `contact_i`, type `n8n-nodes-base.set` and position `[i*300, 300]`; its name is `Contact: ` followed by str(full_name), or `Contact: Unknown` when full_name is missing; it has exactly four string parameters, named id, email, full_name and status in that order, each holding the contact's value or `''` when the key is missing |
| N8nExport.NodeIdInjective | app.py:142 | `contact_i` and `contact_j` are equal only when i = j (the decimal rendering is injective) |
| N8nExport.NodeIdsDistinct | app.py:141-147 | the nodes of the document have pairwise distinct ids |
| N8nExport.ConnectionCount | app.py:172-176 | for n ≥ 1 contacts there are exactly n - 1 connection entries, and none for no contacts |
| N8nExport.LastNodeIsSink | app.py:172-176 | the last node has no outgoing connection |
| N8nExport.ConnectionsFormChain | app.py:172-176 | every connection entry belongs to some node i other than the last, and leads to node i + 1: the graph is one linear chain in contact order |
| N8nExport.EmptyExport | app.py:135-138 | no contacts give an empty node list and an empty connection map |
| CustomFields.SlotFor | app.py:351-359 | a checkbox field yields the list of ticked options; a text field yields the typed text; a select-one or radio field yields the single chosen option |
| CustomFields.CollectCustomValues | app.py:341-361 | the dictionary the loop fills is `CustomValuesOf(fields, answers)`, the fold of the per-field updates in field order (empty when there are no fields) |
| CustomFields.SlotExistsIff | app.py:345-359 | a slug has a slot if and only if some field with that slug has type text, select-one, radio or checkbox; other types get no slot |
| CustomFields.LastFieldWins | app.py:345-359 | the slot under a slug is the one filled by the last recognised field with that slug: a later field overwrites an earlier one |
| ContactPayload.StatusName | app.py:313-317 | the submitted status is one of subscribed, pending, unsubscribed, bounced, complained |
| ContactPayload.KeyNamesDistinct | app.py:371-399 | the sixteen body keys have pairwise distinct JSON names |
| ContactPayload.AssembleSubmission | app.py:366-399 | the submission is rejected with "Email is required" and no body if and only if the email is empty; an accepted body always holds email, status and the ten text fields with the form's inputs, even when empty; date_of_birth is present iff a date was chosen, tags iff a tag was picked, lists iff a list was picked, custom_values iff the custom-values dictionary has a key, each holding the form's value |
| ExportSelection.SelectForExport | app.py:485 | the selection is no longer than the contact list, and every selected contact is one of the contacts and has a selected id |
| ExportSelection.SelectionAtPositions | app.py:485 | the selection is the list of contacts at the positions `SelectedPositions` lists |
| ExportSelection.PositionsIncrease | app.py:485 | those positions are within the contact list and strictly increasing, so contact order is kept |
| ExportSelection.PositionKeptIff | app.py:485 | a contact's position is kept if and only if its id is among the selected ids, so nothing else is included and nothing selected is dropped |
| ExportSelection.SelectionOrderIrrelevant | app.py:478-485 | two id selections with the same members give the same export, whatever order the ids were picked in |

## Left out

- HTTP: the connection test, `fetch_contacts`, `fetch_custom_fields`, the tag and list requests, and the POST itself with its 200/201 check are network I/O against the FluentCRM API. The model stops at the `Submission`: a rejection carries no body, which is where the source sends nothing.
- Session state, the sidebar, page routing, forms and widgets are presentation. Widget answers enter as inputs (`Answer`, `ContactForm`). The model does not constrain them to the field's options the way the widgets do.
- `get_download_link` (JSON dump and base64 encoding), the pandas table, and the `datetime`/`strftime` formatting are library calls. The date of birth enters as an already formatted optional string.
- Dictionary key order: Python dictionaries keep insertion order, but the model's maps do not. So the byte order of the JSON documents is not modelled. The nested `parameters.values.string` list of a node is flattened into `Node.strings`.
- Numbers with a fraction, lists and objects are values the core copies, compares and uses as dictionary keys but never takes apart. The model carries them as `Other` with the text Python's `str()` gives them, and does not model how that text is produced.
- CustomFields.CustomValuesOf, CustomFields.CollectCustomValues: when a field of type text, select-one, radio or checkbox has a slug that is a JSON array or object, Python raises `TypeError` (unhashable type) at the assignment at app.py:352-359, so no dictionary is built and the form is never submitted. The model instead stores a slot under that `Other` value, and `SlotExistsIff` reports it. A slug that is a number with a fraction is hashable, and there the model and the program agree.
- Non-object entries: a contact (app.py:145, 480, 485) or a custom-field description (app.py:346) that is not a JSON object makes `.get` raise `AttributeError`. The `Record` and `Field` types hold only objects, so this error path is not modelled.
- Python equality of ids and slugs: the export filter's `in` test (app.py:485) and the custom-values dictionary keys (app.py:352-359) use Python's `==` and hashing, under which `1`, `1.0` and `True` are equal. The model compares `Value`s structurally, so an `Int(1)` id does not match a `Bool(true)` one, and `Other` values are compared by their `str()` text. The model assumes the API sends all ids, and all slugs, as one JSON type; Python's cross-type numeric equality is not modelled.
- The export page's `if selected_contact_ids:` guard and its button are UI. `SelectForExport` on an empty selection simply yields an empty list.
