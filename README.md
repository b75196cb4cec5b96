# scotfail: a verified model of the live-departures pipeline

`scotfail.py` is a command-line tool. It asks a live rail-data API for the
services at a station, optionally keeps only those bound for one
destination, and prints them grouped by their departure or arrival time.
This project models its in-memory pipeline and proves properties of it:

- `Services`: the service record of the API response, Python truthiness
  of a nullable string, and the destination filter of `get_services`.
- `OrderedDicts`: a Python `dict` with string keys, as an
  insertion-ordered sequence of (key, value) pairs. Assigning to a present
  key replaces its value in place; a new key goes at the end. The class
  `OrderedDict` keeps such a sequence in a field, and its `Set` method
  performs `d[k] = v` with a search loop.
- `Formatter`: `get_info`. `EntryOf` gives the key and field dict one
  service contributes. `Formatted` folds the loop over the filtered list.
  `GetInfo` is the loop itself, filling an `OrderedDict` object.
- `Text`: ASCII `str.capitalize`.
- `Presenter`: `enquire`. Each `print` call becomes one element of the
  returned sequence of strings; stdout is each element followed by a
  newline. `Presented` and `Enquiry` are the specification functions.
  `Present` and `Enquire` are the loops, proved equal to them.
- `Scenarios`: worked examples with the code table
  {GLQ: Glasgow Queen Street, EDB: Edinburgh}.

Inputs and outputs:

- The station-code table is a parameter `codes: map<string, string>`.
- The decoded `services` list of the API response is a parameter.
- A `codes[...]` lookup that raises KeyError (line 124 for the
  destination, line 129 for the source) returns `Failure(KeyError(code))`.
  Both raise before anything is printed, so a failure carries no output.
- The destination filter receives `codes[dest]`, the destination's station
  NAME (line 124), and compares it with each record's `destination` field.
  The model does the same. A request with a destination code therefore
  keeps only records whose `destination` holds that station's name
  (`Scenarios.EnquireToEdinburghByCode`, `Scenarios.EnquireToEdinburghByName`).
- A destination that is missing from the code table raises KeyError at
  line 124; it does not print `No services.` (`Scenarios.EnquireToUnknown`).

## Model

| member | source | states |
|---|---|---|
| `Services.Truthy` | scotfail.py:57 | Python truthiness of a nullable string: true iff it is present and non-empty, as the tests `not destination` (57), `service["departs"]` (79, 89), `service["arrives"]` (79, 97), `not dest` (121) and `if dest` (131) use it |
| `Services.Matching` | scotfail.py:59 | the kept services are elements of the input bound for the destination, and there are no more of them than inputs |
| `Services.GetServices` | scotfail.py:57-59 | a falsy destination returns the list unchanged; a truthy one returns only services whose `destination` equals it |
| `Services.MatchingPicksOut` | scotfail.py:59 | the comprehension's result is the subsequence of the input at the increasing positions of exactly the services bound for the destination |
| `Services.FilterPicksOutMatches` | scotfail.py:59 | with a truthy destination, the result is an order-preserving subsequence of the input whose positions are exactly those of matching services |
| `Services.FilterKeepsAll` | scotfail.py:57-58 | the `PicksOut` form of `GetServices`'s falsy case: with a falsy destination, every service is kept, at its own position, stated like `FilterPicksOutMatches` states the truthy case |
| `OrderedDicts.Assign` | scotfail.py:88 | `d[k] = v`: the key list is unchanged when `k` is present and gains `k` at the end otherwise; `k` maps to `v`; every other key maps as before; every other entry stays at its position; distinct keys stay distinct |
| `OrderedDicts.OrderedDict.constructor` | scotfail.py:77 | `service_info = {}`: a new dict object with no entries |
| `OrderedDicts.OrderedDict.Set` | scotfail.py:88-104 | the search-and-update loop on the dict object leaves exactly `Assign(old entries, k, v)` and keeps the keys distinct |
| `Formatter.EntryOf` | scotfail.py:79-104 | a service contributes nothing iff neither `departs` nor `arrives` is truthy; the key is `"Departure: " + departs` when `departs` is truthy and `"Arrival: " + arrives` otherwise; the field names are platform, arrives, expected, destination, origin when both are truthy and platform, expected, destination, origin when only one is; each field holds the service's attribute of that name |
| `Formatter.Step` | scotfail.py:79-104 | one iteration of the loop: stores the service's field dict under its key with `Assign` when it has a truthy time, else leaves the dict alone; keys stay distinct |
| `Formatter.Formatted` | scotfail.py:76-106 | the dict built from the services has distinct keys and no more entries than there are services |
| `Formatter.GetInfo` | scotfail.py:76-106 | the loop that assigns into the dict object returns exactly `Formatted(services)` |
| `Formatter.FormattedLastWins` | scotfail.py:78-104 | when several services produce the same key, the key maps to the fields of the last of them |
| `Formatter.FormattedAbsent` | scotfail.py:78-106 | a key is absent from the dict iff no service produces it |
| `Formatter.FormattedKeyOrder` | scotfail.py:78-106 | the dict's keys are the produced keys in order of first production, each once; a collision keeps its first position |
| `Formatter.FormattedSize` | scotfail.py:78-106 | the number of entries is the number of distinct keys produced, at most the number of services |
| `Formatter.FormattedEmpty` | scotfail.py:78-106 | the dict is empty iff no service has a truthy `departs` or `arrives` |
| `Text.Capitalize` | scotfail.py:136 | `key.capitalize()` keeps the length, upper-cases the first character and lower-cases the rest |
| `Text.CapitalizeIdempotent` | scotfail.py:136 | capitalizing twice gives the same text as capitalizing once |
| `Text.CapitalizeWord` | scotfail.py:136 | a word with no capital letter after its first changes only in its first letter |
| `Presenter.Show` | scotfail.py:136 | the text an f-string gives a field value: the string itself, or `None` for a null |
| `Presenter.Header` | scotfail.py:129 | the header printed before the entries: `Services from <name>` followed by an embedded newline, so the header is followed by an empty line |
| `Presenter.FromLine` | scotfail.py:131-134 | `From: <source> To: <destination> (<key>)` when a destination was asked for, `From: <source> (<key>)` otherwise |
| `Presenter.FieldLines` | scotfail.py:135-136 | one line per field, in the field dict's order, each `Capitalize(key) + ": " + value` |
| `Presenter.PrintFields` | scotfail.py:135-136 | the inner loop appends exactly the field lines of one entry to what was printed before |
| `Presenter.Presented` | scotfail.py:126-137 | the printed lines for a built dict: `No services.` when it is empty, KeyError when the source code is missing, else the header and each entry's block in insertion order |
| `Presenter.Present` | scotfail.py:126-137 | the printing loops, with the `From:` branch of lines 131-134 taken out into the method `PrintFrom`, produce exactly `Presented`: `No services.` for an empty dict, KeyError for a missing source code, else the header followed by each entry's block |
| `Presenter.Enquiry` | scotfail.py:119-137 | the outcome of `enquire`: KeyError for a truthy destination missing from the table, else `Presented` of the dict built from the services filtered by `codes[dest]` |
| `Presenter.EnquiryFilters` | scotfail.py:121-124 | a falsy destination, or one whose station name is empty, formats every service; otherwise exactly the services whose `destination` equals the station NAME `codes[dest]` are formatted, as an order-preserving subsequence |
| `Presenter.Enquire` | scotfail.py:119-137 | `enquire` produces exactly `Enquiry`: KeyError for a truthy destination missing from the table, else `Presented` of the formatted, filtered services |
| `Presenter.BlockLines` | scotfail.py:131-137 | an entry prints its `From:` line, then one line per field in order, then a blank line |
| `Presenter.BlocksLayout` | scotfail.py:130-137 | the lines of entry `e` are exactly its block, starting right after the lines of the entries before it |
| `Presenter.PresentedLayout` | scotfail.py:126-137 | a non-empty dict prints the header `Services from <codes[sc]>` first, then entry `e`'s block at its offset among the entries, in insertion order |
| `Presenter.PresentedFromLine` | scotfail.py:131-134 | the first line of entry `e`'s block is `From: <codes[sc]> To: <codes[dest]> (<key>)` when `dest` is truthy and `From: <codes[sc]> (<key>)` otherwise |
| `Presenter.PresentedNoServices` | scotfail.py:126-129 | the output is exactly `["No services."]` iff the dict is empty; otherwise it fails iff the source code is missing, with KeyError on that code |
| `Presenter.EnquiryNoServices` | scotfail.py:119-127 | `enquire` prints `No services.` iff no filtered service has a truthy departure or arrival time |
| `Presenter.EnquiryNoMatch` | scotfail.py:121-127 | a destination whose non-empty station name no service carries prints `No services.` |
| `Presenter.EnquiryUnknownDestination` | scotfail.py:121-124 | a truthy destination missing from the code table raises KeyError on it |
| `Scenarios.EnquirySingle` | scotfail.py:119-137 | one service that the filter keeps and that has a time prints the header and that service's block |
| `Scenarios.EnquireFromGlasgow` | scotfail.py:119-137 | the 10:00 departure from GLQ, listed without a destination, prints the header and one entry keyed `Departure: 10:00` with fields platform, expected, destination, origin |
| `Scenarios.EnquireToEdinburghByName` | scotfail.py:119-137 | a record whose destination holds `Edinburgh` is listed for destination EDB, and its `From:` line names Edinburgh |
| `Scenarios.EnquireToEdinburghByCode` | scotfail.py:121-127 | a record whose destination holds the code `EDB` is dropped for destination EDB, so `No services.` is printed |
| `Scenarios.EnquireToUnknown` | scotfail.py:121-124 | destination XYZ, which is not in the table, raises KeyError |

## Left out

- `read_code_file` (scotfail.py:12-19) reads and parses a JSON file. The code table is a parameter instead.
- `get_response` (scotfail.py:22-40) performs an HTTP GET and decodes JSON, raising on a bad status. It is a foreign call, so the decoded `services` list is a parameter instead.
- The `__main__` argument dispatch (scotfail.py:141-147) is command-line plumbing.
- Printing to stdout is not modelled; each `print` call is a string in the result.
- Dynamic JSON access is not modelled. A record missing a field would raise KeyError in Python; the model uses a typed record with every field present. `expected`, `destination` and `origin` are typed as strings, so the model does not cover a JSON null in them, which Python would print as `None`.
- `Text.Capitalize`: covers ASCII letters only. Python's `str.capitalize` also title-cases or lower-cases non-ASCII letters. The keys it is applied to (line 136) are fixed ASCII field names.
- Dict keys are strings only, which is all `get_info` uses.
