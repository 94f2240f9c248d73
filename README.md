# NFe XML uploader: synchronisation engine model

A Dafny model of the decision logic in `NFeGoogleDriveUploader`, the class that
copies NFe XML documents from a local directory into a Google Drive folder.
It covers the following:

- loading `config.json` and filling in the default keys it lacks;
- the credential decision of `authenticate`: fail early, reuse the cached
  token, refresh it, or run the OAuth consent flow; and when the token file is
  rewritten;
- finding the destination folder and creating it when it is missing;
- the metadata of the folder and file requests, and the base name under which
  a file is sent;
- one synchronisation pass (`upload_nfe_xmls`): its checks in order, its
  uploads and the count of successful uploads;
- the `running` flag of the automatic-upload loop, and one iteration of that
  loop with the sleep that ends it.

The OAuth library, the Drive client, the token file and the filesystem are
not modelled. Their answers are inputs: `AuthEnv` holds one success flag per
authentication step, `PassEnv` holds the Drive replies and the enumerated
files, and `XmlFile` holds each file's path and read and upload success. Each
operation returns the external calls it makes, in order, so that contracts
can say which calls happen and which do not.

Modules, one file each:

- `JsonValues` (`json_values.dfy`): configuration values and Python truthiness.
- `ConfigStore` (`config_store.dfy`): the default document, default-merge and reload.
- `Credentials` (`credentials.dfy`): the `authenticate` decision.
- `DriveOps` (`drive_ops.dfy`): request metadata, Windows base name, find and
  create the folder, upload one file.
- `SyncPass` (`sync_pass.dfy`): one pass as a function, with lemmas on its
  order, its folder creations, its uploads and its count.
- `NFeUploader` (`uploader.dfy`): the `Uploader` class. It holds `config`,
  `service` and `running`, and its methods are the stateful operations.

Some of the code's behaviour may be unexpected. The model follows the code:

- The default Drive folder name is `NFes_XML`.
- A refresh that fails makes `authenticate` return false. It does not fall
  back to the consent flow.
- A `token.pickle` that cannot be unpickled makes every `authenticate` call
  return false. There is no fallback to the consent flow, so every pass fails
  until the file is removed. A failed `pickle.dump` after the file has been
  opened for writing can leave such a file behind.
- The token file is written only when the cached credential was absent or
  invalid and a new one was obtained. Reusing a valid token never rewrites it.
- A pass returns a boolean and logs only the success count. It keeps no
  failed count. It returns true even when every upload fails.
- `stop_auto_upload` only clears the flag. It does not wait for the thread.
- A folder id of `None` and a folder id of `""` are treated alike, both when
  deciding whether to create the folder and when adding `parents`.
- A folder listing that fails counts as "no such folder". The pass then
  creates another folder with the same name, even when one already exists.
- The existence checks of the credentials file and of the source directory
  sit outside the `try` blocks. An integer setting is taken as a file
  descriptor, and one outside the C `int` range makes `os.path.exists` raise
  `OverflowError`. The exception escapes `authenticate` and the pass, and the
  loop's `except` sleeps 60 seconds instead of `update_interval`.

## Model

| member | source | states |
|---|---|---|
| `ConfigStore.Merged` | main.py:98-101 | every default key is present; loaded keys keep their loaded values; extra loaded keys are kept; the keys are exactly the loaded keys plus the defaults |
| `ConfigStore.LoadedConfig` | main.py:93-104 | a parsed file gives the merged document; an absent or unreadable file gives a copy of the defaults; either way every default key is present |
| `ConfigStore.ReloadIsStable` | main.py:93-114 | loading a configuration that was loaded and then saved gives the same configuration again |
| `ConfigStore.DefaultsAreStable` | main.py:80-104 | a file that holds exactly the defaults loads the same as no file |
| `NFeUploader.Uploader.LoadConfig` | main.py:93-104 | the loop over the default keys adds each missing key with its default value and leaves present keys alone; the result equals `LoadedConfig` |
| `NFeUploader.Uploader.constructor` | main.py:76-91 | a new uploader has the loaded configuration, no Drive service, and `running` false |
| `Credentials.Decide` | main.py:129-135 | a valid cached credential is reused; an invalid, expired credential with a refresh token is refreshed; anything else runs the full flow |
| `Credentials.Authenticate` | main.py:116-146 | the call raises, with no step taken, exactly when the credentials setting is an integer outside the C `int` range; an empty or missing credentials file fails with no step taken; an unreadable token file fails after the read; a refresh happens exactly for invalid, expired, refreshable credentials, and the flow runs exactly otherwise; the token is written exactly when the credential was absent or invalid and a new one was obtained; success means every step succeeded, and the last step is building the service |
| `Credentials.BuildOnlyAfterAcquiring` | main.py:129-146 | the service is built exactly when the credential was obtained and, if a new one was needed, the token was written; a failed refresh, flow or token write skips the build |
| `Credentials.AuthenticateStepOrder` | main.py:121-142 | the steps run in source order, each at most once: read the token, obtain a credential, write the token, build the service |
| `Credentials.Build` | main.py:140-146 | building the service is the last step, and the call succeeds exactly when it does |
| `Credentials.SessionAfter` | main.py:140-146 | `self.service` is replaced on success and unchanged on failure or exception |
| `Credentials.ValidTokenIsReused` | main.py:125-142 | with a valid stored token, a call neither refreshes, runs the flow nor rewrites the token; with a working build it reads the token and builds the service, nothing else |
| `NFeUploader.Uploader.Authenticate` | main.py:116-146 | the method follows the `Authenticate` decision, its exception included, and changes `service` only on success |
| `DriveOps.FolderMetadataFor` | main.py:150-156 | a folder request carries the name and the folder MIME type, and it carries `parents` exactly when the parent id is truthy |
| `DriveOps.FileMetadataFor` | main.py:185-188 | a file request carries the path's base name, and it carries the folder as `parents` exactly when the folder id is truthy |
| `DriveOps.StripDrive` | main.py:180 | a `X:` drive prefix is dropped only from a path that does not start with a separator; the result is a suffix of the path |
| `DriveOps.LastComponent` | main.py:180 | the result is the longest suffix of the path that has no `/` or `\` |
| `DriveOps.Basename` | main.py:180 | the name sent has no separator and is a suffix of the path |
| `DriveOps.BasenameIsWholeTail` | main.py:180 | the name sent is the whole separator-free tail of the path after its drive: it is preceded by a separator, or by the drive or the start of the path |
| `DriveOps.LastComponentOfJoin` | main.py:180 | a separator followed by a separator-free name has that name as its last component |
| `DriveOps.BasenameOfJoin` | main.py:180 | a file found under any directory is sent under its own file name |
| `DriveOps.FindFolder` | main.py:165-176 | the id of the first listed folder; none when the listing is empty or the call fails |
| `DriveOps.CreatedId` | main.py:158-163 | the reply's id on success; none when the creation fails |
| `DriveOps.ResolveFolder` | main.py:215-217 | the folder is always looked up first; a root folder is created only when the lookup yields no truthy id, so at most once; the id kept is the found one, otherwise the created one |
| `DriveOps.ResolveIsIdempotent` | main.py:165-173 | resolving again after a successful resolution gives the same folder and creates nothing, whether the first resolution found the folder or created it |
| `DriveOps.ListingErrorCreatesDuplicate` | main.py:174-176 | a failed listing after a folder was found or created still leads to a second folder creation, and the pass goes on with the new id |
| `DriveOps.UploadXmlFile` | main.py:178-203 | the file is read first; it is sent with the XML MIME type only if it could be read; the result is true exactly when both steps succeed |
| `SyncPass.Pass` | main.py:205-242 | a pass raises exactly when the credentials setting, or once authenticated the source-directory setting, is an out-of-range integer; it returns true exactly when it authenticates, finds the source directory, resolves a folder id, has a string source directory and enumerates the files, so a failed enumeration or a non-string directory returns false; a pass that does not return true counts nothing |
| `SyncPass.SuccessCount` | main.py:232-235 | the count of successful uploads is at most the number of files |
| `SyncPass.SuccessCountIsOkIndices` | main.py:232-235 | `success_count` equals the number of files whose upload returned true |
| `SyncPass.SuccessCountBounds` | main.py:232-237 | `0 <= success_count <= len(xml_files)`; it equals the length exactly when every upload succeeds, and zero exactly when none does |
| `SyncPass.PrefixStep` | main.py:233-235 | each loop step adds one file's upload calls and adds one to the count exactly when that upload succeeds |
| `SyncPass.UploadOneFile` | main.py:178-203 | uploading one file sends it once if it is readable, and it never creates a folder |
| `SyncPass.UploadsInFileOrder` | main.py:233-234 | a pass sends one upload per readable file, in enumeration order, under the base name and with the folder as parent |
| `SyncPass.ResolutionEvents` | main.py:215-217 | folder resolution sends no file, looks the folder up once, and creates one folder exactly when the lookup yields no truthy id |
| `SyncPass.PassStopsEarly` | main.py:205-221 | an authentication failure returns false before the source directory is examined; an empty or missing source directory returns false before any Drive call; no folder id returns false before any upload |
| `SyncPass.PassRaises` | main.py:205-212 | an out-of-range integer credentials setting raises before any step; an out-of-range integer source directory raises right after it is examined, before any Drive call |
| `SyncPass.PassUploads` | main.py:223-238 | once files are enumerated the pass returns true, even when uploads fail; the count is the number of successful uploads, at most the number of files; the files sent are the readable ones, in order; zero files means no uploads |
| `SyncPass.PassCreatesAtMostOneFolder` | main.py:215-221 | a pass creates at most one folder; it creates one exactly when it reaches folder resolution and the lookup yields no truthy id |
| `SyncPass.PassLooksUpOnce` | main.py:205-221 | a pass looks the folder up exactly once when it gets past the authentication and source-directory checks, and never otherwise |
| `SyncPass.ReachedPassCreates` | main.py:214-221 | once a pass reaches folder resolution, it creates a folder exactly when the lookup yields no truthy id, and nothing after resolution creates one |
| `SyncPass.OneUploadHasNoFolderCall` | main.py:178-203 | uploading one file reads it and may send it, and never looks up or creates a folder |
| `SyncPass.UploadsHaveNoFolderCall` | main.py:178-203 | uploading files never looks up or creates a folder |
| `SyncPass.PassResolvesBeforeUploading` | main.py:214-235 | in every pass, each folder lookup or creation comes before every file upload |
| `NFeUploader.Uploader.UploadAll` | main.py:232-235 | the loop's count and calls equal `SuccessCount` and `UploadEvents` of the files, and the count is at most the number of files |
| `NFeUploader.Uploader.UploadNfeXmls` | main.py:205-242 | the pass method raises or returns exactly as `Pass` does, with its count and calls, and updates `service` as authentication does |
| `NFeUploader.Uploader.StartAutoUpload` | main.py:244-261 | `running` is true afterwards; a loop is started exactly when it was false before |
| `NFeUploader.Uploader.StopAutoUpload` | main.py:263-265 | `running` is false afterwards, whatever it was |
| `NFeUploader.NextDelay` | main.py:253-258 | after a pass the loop sleeps `update_interval` when it is a non-negative integer (a boolean counts as 0 or 1), and 60 seconds when the sleep raises (negative, string or null interval) |
| `NFeUploader.AfterPass` | main.py:253-258 | after a pass the loop sleeps 60 seconds if the pass raised, and `NextDelay` of the interval otherwise; the tick records what the pass returned |
| `NFeUploader.RaisingPassBacksOff` | main.py:253-258 | an out-of-range integer credentials setting, or source directory once authenticated, makes every iteration sleep 60 seconds, whatever `update_interval` says |
| `NFeUploader.ServiceAfterPasses` | main.py:251-258 | after a run of passes the service is unchanged if none authenticated, and is the last pass's session if that one authenticated |
| `NFeUploader.ServiceIsLatestSession` | main.py:140 | after a run of passes the service is the session of the latest pass that authenticated, whatever later passes do |
| `NFeUploader.Uploader.UploadLoopIteration` | main.py:251-258 | with the flag cleared the iteration exits and does nothing; otherwise it runs one pass and sleeps as `AfterPass` says; it never changes `running` |
| `NFeUploader.Uploader.UploadLoop` | main.py:251-258 | while the flag is set, every tick runs a pass and sleeps as `AfterPass` says, whatever the pass returns or raises; the service afterwards is the one the passes left; the loop never clears the flag itself |
| `NFeUploader.StartTwiceStartsOneLoop` | main.py:244-265 | on a new uploader, a stop while idle is harmless, the first start starts the loop and a second start does not |
| `NFeUploader.LoopSurvivesFailures` | main.py:251-258 | after a start, every tick runs a pass and sleeps: 60 seconds after a pass that raised, the configured delay otherwise |

## Left out

- `ConfigGUI` and all Tkinter code: user interface. This includes the GUI's config updates and its `single_upload`, which can run a pass alongside the background loop.
- Windows start-up registration (`add_to_startup`, `remove_from_startup`, `is_in_startup`): registry I/O.
- Logging setup, the virtual-environment check and the import guards: environment plumbing.
- The Google OAuth and Drive client calls (`build`, `files().list/create().execute()`, `InstalledAppFlow`, `creds.refresh`, `MediaIoBaseUpload`): foreign library calls. Their outcomes are input flags and replies.
- JSON parsing and `save_config`: file I/O. A document whose top level is not an object counts as unreadable. The code does otherwise in two cases, and neither is modelled: a top-level array that holds every default key, and a top-level string that contains every default key as a substring, are returned as they are, because `key not in config` is then a membership or substring test and nothing is assigned.
- JSON numbers with a fraction, arrays and objects as setting values: only null, booleans, integers and strings are modelled. A truthy value of these kinds makes `os.path.exists` raise `TypeError`, outside the `try` blocks, so `authenticate` or the pass raises and the loop backs off 60 seconds, as for an out-of-range integer; the model does not cover these values.
- Pickle token I/O and the token contents: the token file is only absent, unreadable, or a credential's three flags.
- The `glob('**/*.xml')` enumeration: the discovered files are an input, in the order given.
- The Drive query string, which is built by plain interpolation without quote escaping: the query's meaning belongs to the remote service, so the listing is an input.
- `threading.Thread` and `time.sleep`: concurrency and wall-clock time. The loop runs sequentially, and a sleep is the delay it returns. `stop_auto_upload` does not wait for the thread. So a stop and a start within one sleep can leave the earlier loop running beside the new one. The model does not capture this.
- DriveOps.Basename: models Windows paths (`ntpath`) only. On other systems `os.path.basename` is `posixpath`'s, where `\` is an ordinary character, so a file name holding `\` would be sent under a different name.
- DriveOps.Basename: a UNC root with no file part, such as `\\server\share`, is not modelled as `ntpath` splits it. Paths from the enumeration always end in a file name.
- JsonValues.ExistsRaises: assumes a 32-bit C `int`, as on the platforms the program targets.
- NFeUploader.NextDelay: does not model the `OverflowError` that `time.sleep` raises for intervals beyond the interpreter's time range (about 292 years), which would also lead to the 60-second backoff.
