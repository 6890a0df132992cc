# Kuyala dashboard core, modelled in Dafny

Kuyala is a dashboard for switching annotated Kubernetes deployments ("apps") on and off. It has three parts, and this project models the core logic of each.

**The browser client (`app/static/js/apps.js`).** `KuyalaSSEClient` subscribes to a server-sent event stream and keeps a map of deployments keyed by `namespace/name`. An `initial_data` snapshot replaces the whole map. Each `deployment_update` delta (`ADDED`, `MODIFIED` or `DELETED`) changes one key. When the stream fails, the client reconnects with a linear backoff: 3000 ms times the attempt number, at most five times the base, for up to 10 attempts. A card is "on" when `replicasCurrent > 0` and offers the opposite state. Its button asks the backend to scale to `replicasOff` or `replicasOn`.

**The backend listing (`app/backend/backend.py`).** `get_current_list` walks every namespace and every deployment in it. It keeps the deployments annotated `kuyala.enabled` and builds one record for each, filling in defaults. It returns a success or error envelope. `action` converts the requested scale with `int()`, defaulting to 1, and patches the deployment. It returns the scale, or `None` when the patch fails.

**The version lookup (`app/backend/get_version.py`).** `get_version` reads `app/__init__.py` and returns the quoted text of the first line of the form `__version__ = '…'`.

Files:

- `wrappers.dfy`: `Option` and `Result`.
- `version.dfy`: module `Version`.
  - The regular-expression search is modelled as a scan over line starts.
  - It is proved against `VersionLineAt`, an independent description of one matching line.
- `pyint.dfy`: module `PyInt`.
  - Python's `int()` on strings, as applied to annotations and to the scale.
  - `str()` is its partner, and the round trip `int(str(n)) == n` is proved.
- `backend.dfy`: module `Backend`.
  - `get_current_list` is modelled as a method with the source's nested loops. It is proved equal to a fold, `ListEnvelopeOf`.
  - The fold is characterised by lemmas against a filter-then-build description.
  - `action` is modelled as a function.
- `dashboard.dfy`: module `Dashboard`. The value-level rules of the client:
  - keys and card ids;
  - what a card shows;
  - which scale a toggle requests;
  - how snapshots and deltas change the map;
  - the backoff.
- `sse_client.dfy`: module `SseClient`.
  - The class `KuyalaSSEClient` keeps the client's fields: whether an event source exists, `isConnected`, `reconnectAttempts` and `deployments`. Its handlers are methods that update them in place.
  - Every method is proved to keep the invariant `Valid()`: the counter never exceeds 10, a connected client has a source, and every deployment is stored under its own key.
  - `ToggleReachesBackend` links a card's button to the backend's `action`.

The Kubernetes client, the event stream, timers and `fetch` are not modelled, and their results become inputs:

- `Backend.Cluster` is what the API returned or raised while listing.
- `Backend.PatchOutcome` is how the scale patch ended.
- The `created` flag of `Connect` says whether `new EventSource` threw.
- A reconnect that would be scheduled is the delay a handler returns.
- A toggle is the request it would post.

Three facts about the code shape the model:

- `replicasOn` and `replicasOff` come from `int()` of the annotations, which accepts negative values. The model allows them.
- `createDeploymentCard` passes namespace and name through `escapeHtml` inside its `onclick` handler (`app/static/js/apps.js:175`), but `updateDeploymentCard` does not (`app/static/js/apps.js:211`). Markup is left out, so this is not modelled.
- The reconnect delay is linear in the attempt number, capped at 5 × 3000 ms. It is not exponential.

## Model

| member | source | states |
|---|---|---|
| `Version.TranslateNewlines` | app/backend/get_version.py:14-15 | Reading in text mode turns `\r\n` and a lone `\r` into `\n`: no `\r` is left and the text does not grow. |
| `Version.TranslateNewlinesCr` | app/backend/get_version.py:14-15 | For `\r`-free text followed by a `\r`, the text is kept, the `\r` becomes one `\n`, and a `\n` right after it is absorbed. The rest is translated in turn. |
| `Version.TranslateNewlinesKeepsLf` | app/backend/get_version.py:14-15 | A file with no `\r` reads back unchanged. |
| `Version.QuotedRun` | app/backend/get_version.py:17 | `([^'"]*)['"]` at index i: the run of non-quote characters that starts at i, if a quote ends it. With no closing quote there is no quote anywhere from i on. |
| `Version.SearchFrom` | app/backend/get_version.py:17 | A version the search finds contains no `'` and no `"`. |
| `Version.MatchAt` | app/backend/get_version.py:17 | At a line start, a match gives a version line with that group. |
| `Version.MatchAtIff` | app/backend/get_version.py:17 | At a line start, the pattern matches with group v exactly when the line is `__version__ = `, a quote, the quote-free v and a quote. |
| `Version.SearchFromFinds` | app/backend/get_version.py:17-19 | A version found from position p comes from a matching line at or after p, and no earlier line from p on matches. |
| `Version.SearchFromMisses` | app/backend/get_version.py:17-20 | When nothing is found from p, no line at or after p matches. |
| `Version.FindVersion` | app/backend/get_version.py:17-19 | A found version is the group of a matching line with no matching line before it. Finding nothing means no line matches. |
| `Version.FindVersionCorrect` | app/backend/get_version.py:17-19 | The search returns v exactly when v is the group of the first matching line in file order. |
| `Version.FindVersionNone` | app/backend/get_version.py:17-20 | The search finds nothing exactly when no line matches. |
| `Version.GetVersion` | app/backend/get_version.py:13-22 | A missing file gives "Version file not found at " plus the path. A file gives a version exactly when the search finds one, and "Version string not found." otherwise. The version is the one the search finds, and it is quote-free. |
| `Version.MixedQuotes` | app/backend/get_version.py:17 | The two quotes are matched independently: `__version__ = '1.0"` gives `1.0`. |
| `Version.EmptyVersion` | app/backend/get_version.py:17 | Empty quotes give the empty version, and text after the closing quote is ignored. |
| `Version.IndentedLineIgnored` | app/backend/get_version.py:17 | An indented line does not match. |
| `Version.UnspacedLineIgnored` | app/backend/get_version.py:17 | `__version__='1.0'` does not match: exactly one space is required on each side of `=`. |
| `PyInt.SkipSpaces` | app/backend/backend.py:56-57 | Skips exactly the run of whitespace that starts at i. |
| `PyInt.SkipSpacesBack` | app/backend/backend.py:56-57 | Skips exactly the run of whitespace that ends at j. |
| `PyInt.StripLeft` | app/backend/backend.py:56-57 | `int()` ignores leading whitespace: the result is a suffix, everything removed is whitespace, and it does not start with whitespace. |
| `PyInt.StripRight` | app/backend/backend.py:56-57 | `int()` ignores trailing whitespace: the result is a prefix, everything removed is whitespace, and it does not end with whitespace. |
| `PyInt.ParseStripped` | app/backend/backend.py:56-57 | An accepted literal is non-empty: an optional sign or digit, then digits and underscores, ending in a digit. A negative value starts with '-'. |
| `PyInt.ParseInt` | app/backend/backend.py:56-57 | An accepted text, once stripped, is non-empty and ends in a digit. After its first character it has only digits and underscores. A negative value has a leading '-'. |
| `PyInt.StripUnpadded` | app/backend/backend.py:56-57 | Text with no whitespace at either end is left unchanged by stripping. |
| `PyInt.DecimalValueOfNatToString` | app/backend/backend.py:56-57 | The decimal text of n has value n. |
| `PyInt.ParseIntRoundTrip` | app/backend/backend.py:16 | For the modelled `int()` and `str()`, which have no digit limit: `int(str(n)) == n` for every integer n. |
| `PyInt.SurroundingSpaces` | app/backend/backend.py:56-57 | `int(" 7\n") == 7`. |
| `PyInt.ForeignCharRejected` | app/backend/backend.py:56-57 | A character other than a digit, an underscore, a sign or whitespace makes `int()` raise. |
| `Backend.ErrorMessage` | app/backend/backend.py:84-90 | An API exception gives "Kubernetes API error: " plus its reason; any other gives "An unexpected error occurred: " plus its text. The API prefix starts the message exactly for API exceptions. |
| `Backend.Annotations` | app/backend/backend.py:47 | Missing annotations count as the empty map. Otherwise they are the deployment's own. |
| `Backend.Enabled` | app/backend/backend.py:48 | A deployment is enabled exactly when it has annotations and they hold `kuyala.enabled`. |
| `Backend.AnnotationInt` | app/backend/backend.py:56-57 | A missing annotation gives the default. A present one gives its `int()` value, or an error when `int()` rejects it. |
| `Backend.ReplicasCurrent` | app/backend/backend.py:58-60 | `status.replicas`, or 0 when there is no status or the replica count is missing. |
| `Backend.Conditions` | app/backend/backend.py:50-55 | Conditions are present exactly when the status has a non-empty list of them. There is one `{type, status}` per condition, in order. |
| `Backend.BuildRecord` | app/backend/backend.py:47-72 | The record exists exactly when both replica annotations convert. A bad `replicasOff` is the error reported, because it is converted first. Otherwise a bad `replicasOn` is the error. The defaults are `replicasOff` 0, `replicasOn` 1, `applicationName` the deployment name and `color` "". Every other field comes from the deployment. |
| `Backend.NamespaceRecords` | app/backend/backend.py:44-72 | A namespace's records are at most one per deployment, and all carry that namespace. |
| `Backend.CollectRecords` | app/backend/backend.py:44-78 | The listing succeeds only when every namespace listed its deployments. |
| `Backend.ListEnvelopeOf` | app/backend/backend.py:35-91 | The envelope is an error exactly when listing namespaces raised or collecting raised. Otherwise its data is the collected records. |
| `Backend.GetCurrentList` | app/backend/backend.py:35-91 | The nested loops return the envelope of the fold: records in namespace order and then deployment order, and the first exception becomes the error envelope. |
| `Backend.AppendNamespace` | app/backend/backend.py:46-72 | The inner loop appends exactly the namespace's records to the data so far, or returns the first exception raised. |
| `Backend.NamespaceFailureSticks` | app/backend/backend.py:80-91 | Once a prefix of a namespace's deployments fails, the whole namespace fails with the same exception. |
| `Backend.CollectFailureSticks` | app/backend/backend.py:80-91 | Once a prefix of the namespaces fails, the whole listing fails with the same exception. |
| `Backend.EnabledOnly` | app/backend/backend.py:47-48 | Keeps exactly the deployments annotated `kuyala.enabled`, with missing annotations counting as `{}`. |
| `Backend.NamespaceRecordsCorrect` | app/backend/backend.py:44-72 | A namespace yields records exactly when every enabled deployment converts. There is one record per enabled deployment, in order. A failure is the error of the first enabled deployment that does not convert. |
| `Backend.RecordsOnlyForEnabled` | app/backend/backend.py:47-48 | Every record comes from an enabled deployment of its namespace, with the same name. |
| `Backend.CollectRecordsCorrect` | app/backend/backend.py:44-78 | The listing succeeds exactly when every namespace lists and every enabled deployment converts. The data is then the namespaces' records concatenated in namespace order. |
| `Backend.EnvelopeShape` | app/backend/backend.py:75-91 | The status is "error" exactly when something was raised. The message is then "Kubernetes API error: " or "An unexpected error occurred: " plus the exception, and there is no data. Otherwise the data is the flattened records. |
| `Backend.UnparsableAnnotationFails` | app/backend/backend.py:56-91 | One enabled deployment whose `kuyala.replicasOn` `int()` rejects turns the whole listing into an error envelope. |
| `Backend.IntOfJson` | app/backend/backend.py:16 | `int()` of a JSON value: a number is itself, a boolean is 0 or 1, a string converts exactly when `int()` accepts it and then to that value, and null, a list or an object raise. |
| `Backend.ScaleOf` | app/backend/backend.py:16 | A missing scale is 1; otherwise the scale is the `int()` of the value. |
| `Backend.PatchRequest` | app/backend/backend.py:14-23 | A patch is sent exactly when the scale converts. It carries the request's name and namespace and the converted scale. |
| `Backend.Action` | app/backend/backend.py:13-32 | Raises exactly when the scale does not convert (no patch is sent), since that happens before the try. Otherwise it returns the patched scale when the patch succeeds and `None` when it fails. |
| `Backend.ActionDefaultScale` | app/backend/backend.py:16-29 | Without a scale, `action` returns 1 on success and `None` on failure. |
| `Backend.ActionScaleRoundTrip` | app/backend/backend.py:16-25 | A scale sent as a number, or as its decimal text, is the scale in the patch request and the scale returned. |
| `Dashboard.KeyLayout` | app/static/js/apps.js:141-142 | The key is the namespace, one '/', then the name. |
| `Dashboard.CardId` | app/static/js/apps.js:143 | A card id is "card-" followed by the key with every '/' replaced by '-'. |
| `Dashboard.KeyInjective` | app/static/js/apps.js:109 | Since namespaces contain no '/', the key `namespace/name` determines both parts. |
| `Dashboard.ReplaceSlashes` | app/static/js/apps.js:143 | Every '/' becomes '-'; every other character and the length are kept. |
| `Dashboard.ReplaceSlashesConcat` | app/static/js/apps.js:143 | Replacing slashes distributes over concatenation. |
| `Dashboard.CardIdHasNoSlash` | app/static/js/apps.js:143 | A card id contains no '/'. |
| `Dashboard.ToggleFindsCardButton` | app/static/js/apps.js:239-240 | The id `toggleDeployment` builds is the card id `createDeploymentCard` gave the card. |
| `Dashboard.CardIdCollision` | app/static/js/apps.js:141-149 | Card ids are not unique. Namespace `a-b` with name `c` and namespace `a` with name `b-c` are different keys with the same card id. |
| `Dashboard.ViewOf` | app/static/js/apps.js:151-175 | A card is on exactly when `replicasCurrent > 0`. Its button turns it the other way, with "Turn On" or "Turn Off". It will scale to `replicasOn` or `replicasOff` accordingly, and the status reads "Running" or "Stopped". |
| `Dashboard.ToggleScale` | app/static/js/apps.js:233 | Turning on requests `replicasOn`; turning off requests `replicasOff`. |
| `Dashboard.CardOffersOppositeState` | app/static/js/apps.js:151-175 | A card is on exactly when `replicasCurrent > 0`. When on, it shows "Running" and "Turn Off", will scale to `replicasOff` and wires `turnOn = false`. When off, it shows the reverse. |
| `Dashboard.ButtonRequestsAnnouncedScale` | app/static/js/apps.js:171-175 | The button requests the scale the card says it "will scale to". |
| `Dashboard.ToggleFlipsCard` | app/static/js/apps.js:151 | With `replicasOff <= 0 < replicasOn`, reaching the requested scale flips the card's state. |
| `Dashboard.ApplyUpdate` | app/static/js/apps.js:108-121 | No key other than the update's appears or disappears. ADDED/MODIFIED store the deployment under its key, and DELETED removes that key. |
| `Dashboard.UpsertStoresUnderKey` | app/static/js/apps.js:108-116 | ADDED/MODIFIED store the update under `namespace/name`, replacing any earlier value. No other key changes. |
| `Dashboard.DeleteRemovesOnlyKey` | app/static/js/apps.js:111-121 | DELETED removes only its key, and deleting an absent key changes nothing. An unrecognised type changes nothing. |
| `Dashboard.ApplyUpdateKeepsKeys` | app/static/js/apps.js:108-121 | A delta keeps every entry stored under its own key. |
| `Dashboard.UntouchedKeyKept` | app/static/js/apps.js:108-122 | A delta for another key, or with an unrecognised type, leaves a key's presence and value as they were. |
| `Dashboard.ReplayLastWins` | app/static/js/apps.js:108-122 | After a stream of deltas, each key reflects the last delta that acted on it. A key no delta acted on keeps its earlier state. |
| `Dashboard.SnapshotMap` | app/static/js/apps.js:124-139 | An empty input gives the empty map. Otherwise the last deployment is stored under its key. |
| `Dashboard.SnapshotKeys` | app/static/js/apps.js:126-138 | A snapshot's keys are exactly the keys of the input, each entry under its own key. |
| `Dashboard.SnapshotLastWins` | app/static/js/apps.js:134-138 | Each key of a snapshot holds the last deployment of the input with that key. |
| `Dashboard.SnapshotContents` | app/static/js/apps.js:126-138 | A snapshot holds exactly the keys of the input, each under its own key, with the later duplicate winning. |
| `Dashboard.SnapshotIsReplayOfAdds` | app/static/js/apps.js:134-138 | A snapshot equals replaying one ADDED per deployment on an empty map. |
| `Dashboard.SnapshotValueAt` | app/static/js/apps.js:134-138 | With distinct keys, every deployment of the input is stored under its key. |
| `Dashboard.SnapshotEntryKept` | app/static/js/apps.js:49-50 | With distinct keys, an entry of the snapshot of one ordering is an entry of the snapshot of any permutation. |
| `Dashboard.SnapshotOrderIrrelevant` | app/static/js/apps.js:49-50 | With distinct keys, sorting before rendering does not change the map. |
| `Dashboard.SnapshotSize` | app/static/js/apps.js:134-138 | With distinct keys, the map has one entry per deployment. |
| `Dashboard.ReconnectStep` | app/static/js/apps.js:89-106 | A delay is scheduled exactly below 10 attempts. Then the counter grows by one and the delay is `3000 * min(attempts, 5)`. Otherwise the counter is kept. |
| `Dashboard.ReconnectStepBounds` | app/static/js/apps.js:89-106 | Below 10 attempts, a step counts one more attempt and schedules a delay between 3000 and 15000 ms. At 10 it changes nothing and schedules nothing. The counter never passes 10. |
| `Dashboard.FailuresSchedule` | app/static/js/apps.js:89-100 | From counter a, the k-th consecutive failure schedules `3000 * min(a + k + 1, 5)` while a + k < 10, and nothing after. The counter ends at `min(a + n, 10)`. |
| `Dashboard.BackoffFromOpen` | app/static/js/apps.js:89-105 | After an open, the delays are 3000, 6000, 9000, 12000, 15000, then 15000 up to the tenth failure, and none after. |
| `Dashboard.InitialDataError` | app/static/js/apps.js:52 | The message shown is the response's non-empty message, or "Failed to load deployments". |
| `Dashboard.Toggle` | app/static/js/apps.js:227-233 | An unknown key gives not-found and no request. Otherwise the request is for the same namespace and name, with scale `turnOn ? replicasOn : replicasOff`. |
| `Dashboard.CardButtonToggles` | app/static/js/apps.js:175 | The button of a stored card addresses its own deployment, with the scale the card announces. |
| `SseClient.KuyalaSSEClient.constructor` | app/static/js/apps.js:4-10 | A new client has no source, is not connected, has made 0 attempts and has an empty map. |
| `SseClient.KuyalaSSEClient.GetConnectionStatus` | app/static/js/apps.js:312-318 | Reports `isConnected`, the attempt count and the map size. Under the invariant, the count is at most 10 and a connected client has a source. |
| `SseClient.KuyalaSSEClient.Disconnect` | app/static/js/apps.js:80-87 | Afterwards there is no source and the client is not connected, so a second call changes nothing. The counter and the map are kept. |
| `SseClient.KuyalaSSEClient.HandleReconnect` | app/static/js/apps.js:89-106 | Below 10, counts the attempt and returns `3000 * min(attempts, 5)`. At 10 it leaves the counter and returns no delay. The counter never passes 10. |
| `SseClient.KuyalaSSEClient.Connect` | app/static/js/apps.js:19-78 | Drops any previous source. It ends unconnected with a source exactly when creation succeeded; a failed creation takes a reconnect step. |
| `SseClient.KuyalaSSEClient.OnOpen` | app/static/js/apps.js:30-35 | Sets connected and resets the counter to 0. |
| `SseClient.KuyalaSSEClient.OnError` | app/static/js/apps.js:67-72 | Clears connected and takes a reconnect step. |
| `SseClient.KuyalaSSEClient.HandleDeploymentUpdate` | app/static/js/apps.js:108-122 | The map becomes `ApplyUpdate` of the old map. Every entry stays under its own key, and nothing else changes. |
| `SseClient.KuyalaSSEClient.RenderDeployments` | app/static/js/apps.js:124-139 | The loop leaves the map equal to the snapshot of the input, which is empty for null or empty input. The empty-state card is shown exactly then. |
| `SseClient.KuyalaSSEClient.OnInitialData` | app/static/js/apps.js:44-54 | A success response replaces the map with the snapshot of the sorted data. Otherwise it returns the error message and keeps the map. |
| `SseClient.KuyalaSSEClient.ToggleDeployment` | app/static/js/apps.js:226-233 | Returns the request `Toggle` describes: not-found exactly for an unknown key, otherwise `replicasOn` when turning on and `replicasOff` when turning off, addressed to the given deployment. |
| `SseClient.ActionBody` | app/static/js/apps.js:252-256 | The posted body names the request's namespace and name as JSON strings and carries its scale as a JSON number. |
| `SseClient.ToggleReachesBackend` | app/static/js/apps.js:247-257 | Clicking a stored card's button makes `action` patch that card's own deployment (same name and namespace) to the announced scale, and a successful `action` returns exactly that scale. |

## Left out

- The DOM: card markup, `querySelector` patching, icons, CSS classes, button disabling and the "Starting…"/"Stopping…" labels. The model keeps the derived values (`Dashboard.ViewOf`), not the markup.
- `escapeHtml` depends on the browser's serialisation and is not modelled.
- `EventSource`, `fetch`/`await`, `setTimeout` and the auto-hiding status banner are I/O and event-loop plumbing.
  - A scheduled reconnect is the returned delay.
  - The outcome of creating a source is a parameter.
  - The result handling of `toggleDeployment` after the `fetch` (lines 259-287) only changes labels and messages.
- The `connected` and `heartbeat` listeners only write display text and log.
- The `localeCompare` sort of `initial_data` depends on the locale.
  - `SseClient.KuyalaSSEClient.OnInitialData` takes the sorted order as an argument that is a permutation of the data.
  - `Dashboard.SnapshotOrderIrrelevant` shows the order does not matter when keys are distinct.
- A stored deployment keeps only the fields the client reads. The update's `type` field and display hints (colours, conditions, creation date) are dropped.
- `eventSource` is modelled as present or absent. Events of a closed source are not modelled, so `OnOpen` requires a live source.
- The Kubernetes client calls and `load_kube_config` are foreign calls. Their results or exceptions are inputs (`Backend.Cluster`, `Backend.PatchOutcome`).
- Logging in backend.py is left out.
- `isoformat()` of the creation timestamp: the timestamp is taken already formatted.
- `PyInt.ParseInt`: handles ASCII digits and ASCII whitespace only. Python's `int()` also accepts other Unicode digits and spaces. CPython's 4300-digit limit on `int()`/`str()` is not modelled: there, a longer annotation or scale raises ValueError, so the listing becomes an error envelope and `action` raises, where the model converts it.
- `PyInt.InvalidLiteralMessage`: simplifies Python's `repr` of the text to single quotes, and does not cut the text at 200 characters as CPython's `%.200R` does.
- `Backend.IntOfJson`: JSON floats are not modelled, so `int(2.5)` truncation is not modelled.
- get_version.py's path construction (lines 9-11) and the opening of the file are left out. The file arrives as an optional content string. The universal-newline read of text mode is modelled (`Version.TranslateNewlines`).
- app/app.py, app/static/js/main.js and gunicorn_config.py are not part of this model.
