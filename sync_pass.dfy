/** One synchronisation pass (`upload_nfe_xmls`) as a function of the
    configuration and of what the environment answers: authenticate, check
    the source directory, resolve the Drive folder, enumerate the XML files,
    upload each one and count the successes. The result is the boolean the
    pass returns, the success count it logs and every external call it made,
    in order. */
module SyncPass {
  import opened JsonValues
  import opened ConfigStore
  import opened Credentials
  import opened DriveOps

  /** An external call of a pass. */
  datatype Event =
    | Auth(step: AuthCall)        // a step of `authenticate`
    | CheckSource(dir: Value)     // the source-directory setting is examined
    | Drive(call: DriveCall)      // a Drive or file-read call
    | Glob(root: string)          // `Path(root).glob('**/*.xml')`

  /** The recursive enumeration of XML files: it fails, or yields the files in enumeration order. */
  datatype FileScan = ScanFailed | Scanned(files: seq<XmlFile>)

  /** What the environment answers during one pass. */
  datatype PassEnv = PassEnv(
    auth: AuthEnv,
    sourceExists: bool,          // os.path.exists on the source-directory setting, when it answers
    listing: Listing,            // reply to the folder query
    reply: CreateReply,          // reply to the folder creation, if it is issued
    scan: FileScan)

  /** The outcome of one pass: whether an exception escaped it, the boolean it
      returned otherwise, the count it logged, its calls and its authentication. */
  datatype PassReport = PassReport(raised: bool, ok: bool, successCount: nat, events: seq<Event>, auth: AuthOutcome)

  /** The source-directory guard before the `try` passes: a non-empty setting naming an existing directory. */
  predicate SourceFound(dir: Value, env: PassEnv) {
    Truthy(dir) && !ExistsRaises(dir) && env.sourceExists
  }

  function AuthEvents(calls: seq<AuthCall>): (es: seq<Event>)
    ensures |es| == |calls|
    ensures forall i :: 0 <= i < |calls| ==> es[i] == Auth(calls[i])
  {
    seq(|calls|, i requires 0 <= i < |calls| => Auth(calls[i]))
  }

  function DriveEvents(calls: seq<DriveCall>): (es: seq<Event>)
    ensures |es| == |calls|
    ensures forall i :: 0 <= i < |calls| ==> es[i] == Drive(calls[i])
  {
    seq(|calls|, i requires 0 <= i < |calls| => Drive(calls[i]))
  }

  /** The number of files whose upload succeeds (`success_count`). */
  function SuccessCount(files: seq<XmlFile>): (n: nat)
    ensures n <= |files|
  {
    if files == [] then 0
    else SuccessCount(files[..|files| - 1]) + (if Uploaded(files[|files| - 1]) then 1 else 0)
  }

  /** The calls of uploading each file in turn. */
  function UploadEvents(files: seq<XmlFile>, folderId: Option<string>): seq<Event> {
    if files == [] then []
    else UploadEvents(files[..|files| - 1], folderId) + DriveEvents(UploadXmlFile(files[|files| - 1], folderId).calls)
  }

  /** One pass against the configuration `config`. */
  function Pass(config: map<string, Value>, env: PassEnv): (r: PassReport)
    requires HasDefaults(config)
    ensures r.auth == Authenticate(config[CredentialsFileKey], env.auth)
    // an exception escapes exactly from one of the two existence checks outside the `try`
    ensures r.raised <==>
      ExistsRaises(config[CredentialsFileKey]) || (r.auth.Authenticated? && ExistsRaises(config[SourceDirectoryKey]))
    ensures r.ok ==> !r.raised
    // the pass returns true exactly when it gets as far as enumerating files
    ensures r.ok <==>
      && r.auth.Authenticated?
      && SourceFound(config[SourceDirectoryKey], env)
      && IsSet(ResolveFolder(config[DriveFolderKey], env.listing, env.reply).folderId)
      && config[SourceDirectoryKey].Str?
      && env.scan.Scanned?
    ensures !r.ok ==> r.successCount == 0
  {
    var auth := Authenticate(config[CredentialsFileKey], env.auth);
    var e0 := AuthEvents(auth.calls);
    if auth.AuthRaised? then PassReport(true, false, 0, e0, auth)
    else if !auth.Authenticated? then PassReport(false, false, 0, e0, auth)
    else
      var dir := config[SourceDirectoryKey];
      var e1 := e0 + [CheckSource(dir)];
      if !Truthy(dir) then PassReport(false, false, 0, e1, auth)
      else if ExistsRaises(dir) then PassReport(true, false, 0, e1, auth)
      else if !env.sourceExists then PassReport(false, false, 0, e1, auth)
      else
        var res := ResolveFolder(config[DriveFolderKey], env.listing, env.reply);
        var e2 := e1 + DriveEvents(res.calls);
        if !IsSet(res.folderId) then PassReport(false, false, 0, e2, auth)
        // `Path` of a non-string setting raises inside the `try`
        else if !dir.Str? then PassReport(false, false, 0, e2, auth)
        else
          var e3 := e2 + [Glob(dir.s)];
          match env.scan
          case ScanFailed => PassReport(false, false, 0, e3, auth)
          case Scanned(files) =>
            if files == [] then PassReport(false, true, 0, e3, auth)
            else PassReport(false, true, SuccessCount(files), e3 + UploadEvents(files, res.folderId), auth)
  }

  /** Extending the processed prefix by one file. */
  lemma PrefixStep(files: seq<XmlFile>, folderId: Option<string>, i: nat)
    requires i < |files|
    ensures SuccessCount(files[..i + 1]) == SuccessCount(files[..i]) + (if Uploaded(files[i]) then 1 else 0)
    ensures UploadEvents(files[..i + 1], folderId)
      == UploadEvents(files[..i], folderId) + DriveEvents(UploadXmlFile(files[i], folderId).calls)
  {
    assert files[..i + 1][..i] == files[..i];
  }

  // ---------------------------------------------------------------- event views

  /** A query for the destination folder. */
  predicate IsFolderLookup(e: Event) {
    e.Drive? && e.call.ListFolders?
  }

  /** A creation of the destination folder. */
  predicate IsFolderCreate(e: Event) {
    e.Drive? && e.call.CreateFolder?
  }

  /** A call that looks up or creates the destination folder. */
  predicate IsFolderCall(e: Event) {
    IsFolderLookup(e) || IsFolderCreate(e)
  }

  /** A call that sends a file to Drive. */
  predicate IsFileSend(e: Event) {
    e.Drive? && e.call.CreateFile?
  }

  /** The metadata of every file upload among `events`, in order. */
  function SentFiles(events: seq<Event>): seq<FileMetadata> {
    if events == [] then []
    else (if IsFileSend(events[0]) then [events[0].call.file] else []) + SentFiles(events[1..])
  }

  /** The number of folder creations among `events`. */
  function FolderCreates(events: seq<Event>): nat {
    if events == [] then 0
    else (if IsFolderCreate(events[0]) then 1 else 0) + FolderCreates(events[1..])
  }

  /** The number of folder queries among `events`. */
  function FolderLookups(events: seq<Event>): nat {
    if events == [] then 0
    else (if IsFolderLookup(events[0]) then 1 else 0) + FolderLookups(events[1..])
  }

  /** The metadata a pass should send for `files`: one upload per readable file, in order, under its base name. */
  function ExpectedUploads(files: seq<XmlFile>, folderId: Option<string>): (sent: seq<FileMetadata>)
    ensures |sent| <= |files|
  {
    if files == [] then []
    else
      var last := files[|files| - 1];
      ExpectedUploads(files[..|files| - 1], folderId)
      + (if last.readable then [FileMetadataFor(last.path, folderId)] else [])
  }

  /** The indices of the files whose upload succeeds. */
  function OkIndices(files: seq<XmlFile>): set<nat> {
    set i: nat | i < |files| && Uploaded(files[i])
  }

  // ---------------------------------------------------------------- counting

  /** `success_count` is the number of files whose upload succeeded. */
  lemma {:induction false} SuccessCountIsOkIndices(files: seq<XmlFile>)
    ensures SuccessCount(files) == |OkIndices(files)|
  {
    if files != [] {
      var n := |files| - 1;
      var init := files[..n];
      SuccessCountIsOkIndices(init);
      assert OkIndices(files) == OkIndices(init) + (if Uploaded(files[n]) then {n} else {}) by {
        forall i: nat | i < n ensures init[i] == files[i] {
        }
      }
      assert n !in OkIndices(init);
    }
  }

  /** `0 <= success_count <= len(xml_files)`, with the two ends reached exactly when every upload fails or succeeds. */
  lemma {:induction false} SuccessCountBounds(files: seq<XmlFile>)
    ensures SuccessCount(files) <= |files|
    ensures SuccessCount(files) == |files| <==> forall i :: 0 <= i < |files| ==> Uploaded(files[i])
    ensures SuccessCount(files) == 0 <==> forall i :: 0 <= i < |files| ==> !Uploaded(files[i])
  {
    if files != [] {
      var n := |files| - 1;
      var init := files[..n];
      SuccessCountBounds(init);
      assert forall i :: 0 <= i < n ==> init[i] == files[i];
    }
  }

  // ---------------------------------------------------------------- event lemmas

  lemma {:induction false} SentFilesAppend(a: seq<Event>, b: seq<Event>)
    ensures SentFiles(a + b) == SentFiles(a) + SentFiles(b)
  {
    if a != [] {
      assert (a + b)[0] == a[0];
      assert (a + b)[1..] == a[1..] + b;
      SentFilesAppend(a[1..], b);
    } else {
      assert a + b == b;
    }
  }

  lemma {:induction false} FolderCreatesAppend(a: seq<Event>, b: seq<Event>)
    ensures FolderCreates(a + b) == FolderCreates(a) + FolderCreates(b)
  {
    if a != [] {
      assert (a + b)[0] == a[0];
      assert (a + b)[1..] == a[1..] + b;
      FolderCreatesAppend(a[1..], b);
    } else {
      assert a + b == b;
    }
  }

  lemma {:induction false} FolderLookupsAppend(a: seq<Event>, b: seq<Event>)
    ensures FolderLookups(a + b) == FolderLookups(a) + FolderLookups(b)
  {
    if a != [] {
      assert (a + b)[0] == a[0];
      assert (a + b)[1..] == a[1..] + b;
      FolderLookupsAppend(a[1..], b);
    } else {
      assert a + b == b;
    }
  }

  /** Events with no Drive call send no file and create no folder. */
  lemma {:induction false} NoDriveEvents(es: seq<Event>)
    requires forall i :: 0 <= i < |es| ==> !es[i].Drive?
    ensures SentFiles(es) == [] && FolderCreates(es) == 0 && FolderLookups(es) == 0
  {
    if es != [] {
      NoDriveEvents(es[1..]);
    }
  }

  /** The views of a single event. */
  lemma OneEvent(e: Event)
    ensures SentFiles([e]) == (if IsFileSend(e) then [e.call.file] else [])
    ensures FolderCreates([e]) == (if IsFolderCreate(e) then 1 else 0)
    ensures FolderLookups([e]) == (if IsFolderLookup(e) then 1 else 0)
  {
  }

  /** The events of uploading one file: a read, then a send if the file can be read. */
  lemma UploadOneFileEvents(file: XmlFile, folderId: Option<string>)
    ensures DriveEvents(UploadXmlFile(file, folderId).calls) ==
      [Drive(ReadFile(file.path))]
      + (if file.readable then [Drive(CreateFile(FileMetadataFor(file.path, folderId), XmlMimeType))] else [])
  {
  }

  /** Uploading one file sends it once if it can be read, and creates no folder. */
  lemma UploadOneFile(file: XmlFile, folderId: Option<string>)
    ensures var es := DriveEvents(UploadXmlFile(file, folderId).calls);
      && SentFiles(es) == (if file.readable then [FileMetadataFor(file.path, folderId)] else [])
      && FolderCreates(es) == 0
  {
    var read := Drive(ReadFile(file.path));
    var send := Drive(CreateFile(FileMetadataFor(file.path, folderId), XmlMimeType));
    var sent := if file.readable then [send] else [];
    OneEvent(read);
    OneEvent(send);
    SentFilesAppend([read], sent);
    FolderCreatesAppend([read], sent);
    assert SentFiles(sent) == (if file.readable then [FileMetadataFor(file.path, folderId)] else []);
    UploadOneFileEvents(file, folderId);
  }

  /** Uploads go out one per readable file, in enumeration order, and create no folder. */
  lemma {:induction false} UploadsInFileOrder(files: seq<XmlFile>, folderId: Option<string>)
    ensures SentFiles(UploadEvents(files, folderId)) == ExpectedUploads(files, folderId)
    ensures FolderCreates(UploadEvents(files, folderId)) == 0
  {
    if files != [] {
      var init := files[..|files| - 1];
      var last := DriveEvents(UploadXmlFile(files[|files| - 1], folderId).calls);
      UploadsInFileOrder(init, folderId);
      UploadOneFile(files[|files| - 1], folderId);
      SentFilesAppend(UploadEvents(init, folderId), last);
      FolderCreatesAppend(UploadEvents(init, folderId), last);
    }
  }

  /** The folder calls of a resolution: one lookup, then one creation exactly
      when the lookup yields no truthy id. */
  lemma ResolutionEvents(name: Value, listing: Listing, reply: CreateReply)
    ensures var es := DriveEvents(ResolveFolder(name, listing, reply).calls);
      && SentFiles(es) == []
      && FolderLookups(es) == 1
      && FolderCreates(es) == (if IsSet(FindFolder(listing)) then 0 else 1)
  {
    var r := ResolveFolder(name, listing, reply);
    var es := DriveEvents(r.calls);
    OneEvent(Drive(r.calls[0]));
    if IsSet(FindFolder(listing)) {
      assert es == [Drive(r.calls[0])];
    } else {
      assert es == [Drive(r.calls[0])] + [Drive(r.calls[1])];
      OneEvent(Drive(r.calls[1]));
      SentFilesAppend([Drive(r.calls[0])], [Drive(r.calls[1])]);
      FolderCreatesAppend([Drive(r.calls[0])], [Drive(r.calls[1])]);
      FolderLookupsAppend([Drive(r.calls[0])], [Drive(r.calls[1])]);
    }
  }

  // ---------------------------------------------------------------- pass properties

  /** The checks of a pass run in order and each failing check ends the pass with `false`:
      a failed authentication before the source directory is examined, a missing
      source directory before any Drive call, a missing folder before any upload. */
  lemma PassStopsEarly(config: map<string, Value>, env: PassEnv)
    requires HasDefaults(config)
    ensures var r := Pass(config, env);
      var auth := Authenticate(config[CredentialsFileKey], env.auth);
      var dir := config[SourceDirectoryKey];
      && (!auth.Authenticated? ==> !r.ok && r.events == AuthEvents(auth.calls))
      && (auth.Authenticated? && !SourceFound(dir, env) ==>
            !r.ok && r.events == AuthEvents(auth.calls) + [CheckSource(dir)])
      && (!IsSet(ResolveFolder(config[DriveFolderKey], env.listing, env.reply).folderId) ==>
            !r.ok && SentFiles(r.events) == [])
  {
    var r := Pass(config, env);
    var auth := Authenticate(config[CredentialsFileKey], env.auth);
    var dir := config[SourceDirectoryKey];
    var e1 := AuthEvents(auth.calls) + [CheckSource(dir)];
    NoDriveEvents(AuthEvents(auth.calls));
    NoDriveEvents(e1);
    if auth.Authenticated? && SourceFound(dir, env) {
      var res := ResolveFolder(config[DriveFolderKey], env.listing, env.reply);
      ResolutionEvents(config[DriveFolderKey], env.listing, env.reply);
      SentFilesAppend(e1, DriveEvents(res.calls));
    }
  }

  /** An out-of-range integer setting makes a pass raise: the credentials
      setting before any authentication step, the source-directory setting
      right after it is examined and before any Drive call. */
  lemma PassRaises(config: map<string, Value>, env: PassEnv)
    requires HasDefaults(config)
    ensures var r := Pass(config, env);
      var auth := Authenticate(config[CredentialsFileKey], env.auth);
      var dir := config[SourceDirectoryKey];
      && (ExistsRaises(config[CredentialsFileKey]) ==> r.raised && r.events == [])
      && (auth.Authenticated? && ExistsRaises(dir) ==>
            r.raised && r.events == AuthEvents(auth.calls) + [CheckSource(dir)] && SentFiles(r.events) == [])
  {
    var auth := Authenticate(config[CredentialsFileKey], env.auth);
    NoDriveEvents(AuthEvents(auth.calls) + [CheckSource(config[SourceDirectoryKey])]);
  }

  /** A pass that gets as far as enumerating files returns `true`, whatever the
      uploads do; it counts the successful uploads and sends exactly the
      readable files, in order, to the resolved folder. With no XML file it
      uploads nothing. */
  lemma PassUploads(config: map<string, Value>, env: PassEnv)
    requires HasDefaults(config)
    requires Authenticate(config[CredentialsFileKey], env.auth).Authenticated?
    requires SourceFound(config[SourceDirectoryKey], env) && config[SourceDirectoryKey].Str?
    requires IsSet(ResolveFolder(config[DriveFolderKey], env.listing, env.reply).folderId)
    requires env.scan.Scanned?
    ensures var r := Pass(config, env);
      var folderId := ResolveFolder(config[DriveFolderKey], env.listing, env.reply).folderId;
      && !r.raised && r.ok
      && r.successCount == |OkIndices(env.scan.files)| <= |env.scan.files|
      && SentFiles(r.events) == ExpectedUploads(env.scan.files, folderId)
      && (env.scan.files == [] ==> SentFiles(r.events) == [])
  {
    var res := ResolveFolder(config[DriveFolderKey], env.listing, env.reply);
    var files := env.scan.files;
    var e3 := EnumeratedEvents(config, env);
    UploadsInFileOrder(files, res.folderId);
    SentFilesAppend(e3, UploadEvents(files, res.folderId));
    SuccessCountIsOkIndices(files);
    SuccessCountBounds(files);
  }

  /** The calls of a pass that reaches enumeration: the checks, which send no
      file, then one upload per enumerated file. */
  lemma EnumeratedEvents(config: map<string, Value>, env: PassEnv) returns (e3: seq<Event>)
    requires HasDefaults(config)
    requires Authenticate(config[CredentialsFileKey], env.auth).Authenticated?
    requires SourceFound(config[SourceDirectoryKey], env) && config[SourceDirectoryKey].Str?
    requires IsSet(ResolveFolder(config[DriveFolderKey], env.listing, env.reply).folderId)
    requires env.scan.Scanned?
    ensures SentFiles(e3) == []
    ensures Pass(config, env).events
      == e3 + UploadEvents(env.scan.files, ResolveFolder(config[DriveFolderKey], env.listing, env.reply).folderId)
  {
    var auth := Authenticate(config[CredentialsFileKey], env.auth);
    var dir := config[SourceDirectoryKey];
    var res := ResolveFolder(config[DriveFolderKey], env.listing, env.reply);
    e3 := AuthEvents(auth.calls) + [CheckSource(dir)] + DriveEvents(res.calls) + [Glob(dir.s)];
    ChecksSendNothing(auth.calls, dir, res, [Glob(dir.s)]);
    NoFileSendSendsNothing(e3);
    if env.scan.files == [] {
      assert Pass(config, env).events == e3;
      assert e3 + UploadEvents([], res.folderId) == e3;
    } else {
      assert Pass(config, env).events == e3 + UploadEvents(env.scan.files, res.folderId);
    }
  }

  /** A pass creates at most one folder, and creates one exactly when it reaches
      folder resolution and the lookup yields no truthy id. */
  lemma PassCreatesAtMostOneFolder(config: map<string, Value>, env: PassEnv)
    requires HasDefaults(config)
    ensures var r := Pass(config, env);
      var reached := Authenticate(config[CredentialsFileKey], env.auth).Authenticated?
        && SourceFound(config[SourceDirectoryKey], env);
      && FolderCreates(r.events) <= 1
      && (FolderCreates(r.events) == 1 <==> reached && !IsSet(FindFolder(env.listing)))
  {
    var r := Pass(config, env);
    var auth := Authenticate(config[CredentialsFileKey], env.auth);
    var dir := config[SourceDirectoryKey];
    if auth.Authenticated? && SourceFound(dir, env) {
      ReachedPassCreates(config, env);
    } else {
      var e0 := AuthEvents(auth.calls);
      NoDriveEvents(e0);
      NoDriveEvents(e0 + [CheckSource(dir)]);
      assert r.events == e0 || r.events == e0 + [CheckSource(dir)];
    }
  }

  /** Once folder resolution is reached, the pass's only folder creation is the resolution's. */
  lemma ReachedPassCreates(config: map<string, Value>, env: PassEnv)
    requires HasDefaults(config)
    requires Authenticate(config[CredentialsFileKey], env.auth).Authenticated?
    requires SourceFound(config[SourceDirectoryKey], env)
    ensures FolderCreates(Pass(config, env).events) == (if IsSet(FindFolder(env.listing)) then 0 else 1)
  {
    var r := Pass(config, env);
    var auth := Authenticate(config[CredentialsFileKey], env.auth);
    var dir := config[SourceDirectoryKey];
    var e1 := AuthEvents(auth.calls) + [CheckSource(dir)];
    var res := ResolveFolder(config[DriveFolderKey], env.listing, env.reply);
    var e2 := e1 + DriveEvents(res.calls);
    NoDriveEvents(e1);
    ResolutionEvents(config[DriveFolderKey], env.listing, env.reply);
    FolderCreatesAppend(e1, DriveEvents(res.calls));
    if IsSet(res.folderId) && dir.Str? {
      var e3 := e2 + [Glob(dir.s)];
      NoDriveEvents([Glob(dir.s)]);
      FolderCreatesAppend(e2, [Glob(dir.s)]);
      if env.scan.Scanned? && env.scan.files != [] {
        UploadsInFileOrder(env.scan.files, res.folderId);
        FolderCreatesAppend(e3, UploadEvents(env.scan.files, res.folderId));
        assert r.events == e3 + UploadEvents(env.scan.files, res.folderId);
      } else {
        assert r.events == e3;
      }
    } else {
      assert r.events == e2;
    }
  }

  // ---------------------------------------------------------------- order of folder and file calls

  /** Every folder call among `es` comes before every file send. */
  predicate ResolvedBeforeUploads(es: seq<Event>) {
    forall i, j :: 0 <= i < |es| && 0 <= j < |es| && IsFolderCall(es[i]) && IsFileSend(es[j]) ==> i < j
  }

  /** No event of `es` sends a file. */
  predicate NoFileSend(es: seq<Event>) {
    forall k :: 0 <= k < |es| ==> !IsFileSend(es[k])
  }

  /** No event of `es` looks up or creates a folder. */
  predicate NoFolderCall(es: seq<Event>) {
    forall k :: 0 <= k < |es| ==> !IsFolderCall(es[k])
  }

  /** With no file send, the files sent are none. */
  lemma {:induction false} NoFileSendSendsNothing(es: seq<Event>)
    requires NoFileSend(es)
    ensures SentFiles(es) == []
  {
    if es != [] {
      NoFileSendSendsNothing(es[1..]);
    }
  }

  /** With no folder call, no folder is looked up or created. */
  lemma {:induction false} NoFolderCallCountsNothing(es: seq<Event>)
    requires NoFolderCall(es)
    ensures FolderLookups(es) == 0 && FolderCreates(es) == 0
  {
    if es != [] {
      NoFolderCallCountsNothing(es[1..]);
    }
  }

  lemma NoFolderCallAppend(a: seq<Event>, b: seq<Event>)
    requires NoFolderCall(a) && NoFolderCall(b)
    ensures NoFolderCall(a + b)
  {
  }

  /** Uploading one file makes no folder call: it reads the file and may send it. */
  lemma OneUploadHasNoFolderCall(file: XmlFile, folderId: Option<string>)
    ensures NoFolderCall(DriveEvents(UploadXmlFile(file, folderId).calls))
  {
    var calls := UploadXmlFile(file, folderId).calls;
    forall k | 0 <= k < |calls| ensures calls[k].ReadFile? || calls[k].CreateFile? {
      assert k == 0 || k == 1;
    }
    FileCallsHaveNoFolderCall(calls);
  }

  /** Reads and sends of files are no folder calls. */
  lemma FileCallsHaveNoFolderCall(calls: seq<DriveCall>)
    requires forall k :: 0 <= k < |calls| ==> calls[k].ReadFile? || calls[k].CreateFile?
    ensures NoFolderCall(DriveEvents(calls))
  {
  }

  /** Uploading files makes no folder call. */
  lemma {:induction false} UploadsHaveNoFolderCall(files: seq<XmlFile>, folderId: Option<string>)
    ensures NoFolderCall(UploadEvents(files, folderId))
  {
    if files != [] {
      var init := files[..|files| - 1];
      UploadsHaveNoFolderCall(init, folderId);
      OneUploadHasNoFolderCall(files[|files| - 1], folderId);
      NoFolderCallAppend(UploadEvents(init, folderId), DriveEvents(UploadXmlFile(files[|files| - 1], folderId).calls));
    }
  }

  /** Calls with no file send, then calls with no folder call, resolve before uploading. */
  lemma ResolvedBeforeUploadsAppend(a: seq<Event>, b: seq<Event>)
    requires NoFileSend(a) && NoFolderCall(b)
    ensures ResolvedBeforeUploads(a + b)
  {
  }

  /** Nothing a pass does before enumerating files sends a file. */
  lemma ChecksSendNothing(calls: seq<AuthCall>, dir: Value, res: Resolution, tail: seq<Event>)
    requires 1 <= |res.calls| <= 2 && res.calls[0].ListFolders?
    requires |res.calls| == 2 ==> res.calls[1].CreateFolder?
    requires NoFileSend(tail)
    ensures NoFileSend(AuthEvents(calls))
    ensures NoFileSend(AuthEvents(calls) + [CheckSource(dir)])
    ensures NoFileSend(AuthEvents(calls) + [CheckSource(dir)] + DriveEvents(res.calls))
    ensures NoFileSend(AuthEvents(calls) + [CheckSource(dir)] + DriveEvents(res.calls) + tail)
  {
  }

  /** In every pass the folder is looked up, and created if need be, before any file is sent. */
  lemma PassResolvesBeforeUploading(config: map<string, Value>, env: PassEnv)
    requires HasDefaults(config)
    ensures ResolvedBeforeUploads(Pass(config, env).events)
  {
    var r := Pass(config, env);
    var auth := Authenticate(config[CredentialsFileKey], env.auth);
    var dir := config[SourceDirectoryKey];
    var res := ResolveFolder(config[DriveFolderKey], env.listing, env.reply);
    var tail := if dir.Str? then [Glob(dir.s)] else [];
    ChecksSendNothing(auth.calls, dir, res, tail);
    var e3 := AuthEvents(auth.calls) + [CheckSource(dir)] + DriveEvents(res.calls) + tail;
    if r.ok && env.scan.files != [] {
      UploadsHaveNoFolderCall(env.scan.files, res.folderId);
      assert r.events == e3 + UploadEvents(env.scan.files, res.folderId);
      ResolvedBeforeUploadsAppend(e3, UploadEvents(env.scan.files, res.folderId));
    } else {
      assert NoFileSend(r.events);
      ResolvedBeforeUploadsAppend(r.events, []);
      assert r.events + [] == r.events;
    }
  }

  /** A pass looks the folder up once when it gets past the authentication and
      source-directory checks, and never otherwise: no step after resolution
      queries the folder again. */
  lemma PassLooksUpOnce(config: map<string, Value>, env: PassEnv)
    requires HasDefaults(config)
    ensures FolderLookups(Pass(config, env).events) ==
      (if Authenticate(config[CredentialsFileKey], env.auth).Authenticated? && SourceFound(config[SourceDirectoryKey], env)
       then 1 else 0)
  {
    var r := Pass(config, env);
    var auth := Authenticate(config[CredentialsFileKey], env.auth);
    var dir := config[SourceDirectoryKey];
    var e0 := AuthEvents(auth.calls);
    var e1 := e0 + [CheckSource(dir)];
    if auth.Authenticated? && SourceFound(dir, env) {
      var res := ResolveFolder(config[DriveFolderKey], env.listing, env.reply);
      var e2 := e1 + DriveEvents(res.calls);
      NoDriveEvents(e1);
      ResolutionEvents(config[DriveFolderKey], env.listing, env.reply);
      FolderLookupsAppend(e1, DriveEvents(res.calls));
      if IsSet(res.folderId) && dir.Str? {
        var e3 := e2 + [Glob(dir.s)];
        NoDriveEvents([Glob(dir.s)]);
        FolderLookupsAppend(e2, [Glob(dir.s)]);
        if env.scan.Scanned? && env.scan.files != [] {
          UploadsHaveNoFolderCall(env.scan.files, res.folderId);
          NoFolderCallCountsNothing(UploadEvents(env.scan.files, res.folderId));
          FolderLookupsAppend(e3, UploadEvents(env.scan.files, res.folderId));
          assert r.events == e3 + UploadEvents(env.scan.files, res.folderId);
        } else {
          assert r.events == e3;
        }
      } else {
        assert r.events == e2;
      }
    } else {
      NoDriveEvents(e0);
      NoDriveEvents(e1);
      assert r.events == e0 || r.events == e1;
    }
  }
}
