/** The uploader object: its configuration, its Drive session and the flag
    of the automatic-upload loop, with the operations that read and change
    them. The background thread and its sleeps are not modelled; one loop
    iteration is a method that returns how long the thread would sleep. */
module NFeUploader {
  import opened JsonValues
  import opened ConfigStore
  import opened Credentials
  import opened DriveOps
  import opened SyncPass

  /** The sleep after an iteration whose body raised. */
  const ErrorBackoff := 60

  /** The sleep that ends one loop iteration: `time.sleep(update_interval)`,
      which accepts a non-negative integer (a boolean counts as 0 or 1) and
      raises on anything else, sending the iteration to its 60-second backoff. */
  function NextDelay(interval: Value): (d: nat)
    ensures interval.Num? && interval.n >= 0 ==> d == interval.n
    ensures interval.Flag? ==> d == (if interval.b then 1 else 0)
    ensures interval.Null? || interval.Str? || (interval.Num? && interval.n < 0) ==> d == ErrorBackoff
  {
    match interval
    case Num(n) => if n >= 0 then n else ErrorBackoff
    case Flag(b) => if b then 1 else 0
    case _ => ErrorBackoff
  }

  /** One iteration of the automatic-upload loop: it found the flag cleared and
      exited, or it ran a pass, which returned `passOk` unless it raised, and slept. */
  datatype Tick = Exited | Slept(passOk: bool, delay: nat)

  /** How an iteration that ran the pass `p` ends: a pass that raised goes
      straight to the backoff, otherwise the loop sleeps `update_interval`. */
  function AfterPass(p: PassReport, interval: Value): (t: Tick)
    ensures t.Slept? && t.passOk == p.ok
    ensures !p.raised ==> t.delay == NextDelay(interval)
    ensures p.raised ==> t.delay == ErrorBackoff
  {
    Slept(p.ok, if p.raised then ErrorBackoff else NextDelay(interval))
  }

  /** An out-of-range integer as the credentials setting, or as the source
      directory once authentication succeeds, sends every iteration to the
      60-second backoff, whatever `update_interval` says. */
  lemma RaisingPassBacksOff(config: map<string, Value>, env: PassEnv)
    requires HasDefaults(config)
    requires ExistsRaises(config[CredentialsFileKey])
      || (Authenticate(config[CredentialsFileKey], env.auth).Authenticated? && ExistsRaises(config[SourceDirectoryKey]))
    ensures AfterPass(Pass(config, env), config[UpdateIntervalKey]) == Slept(false, ErrorBackoff)
  {
  }

  /** The service after a run of passes is the session of the latest pass that
      authenticated; later passes that fail or raise leave it in place. */
  lemma {:induction false} ServiceIsLatestSession(prior: Option<Session>, config: map<string, Value>, envs: seq<PassEnv>, i: nat)
    requires HasDefaults(config) && i < |envs|
    requires Pass(config, envs[i]).auth.Authenticated?
    requires forall j :: i < j < |envs| ==> !Pass(config, envs[j]).auth.Authenticated?
    ensures ServiceAfterPasses(prior, config, envs) == Some(Session(Pass(config, envs[i]).auth.via))
  {
    if i < |envs| - 1 {
      var init := envs[..|envs| - 1];
      assert forall j :: i < j < |init| ==> init[j] == envs[j];
      ServiceIsLatestSession(prior, config, init, i);
    }
  }

  /** Extending the passes by one. */
  lemma ServiceStep(prior: Option<Session>, config: map<string, Value>, envs: seq<PassEnv>, i: nat)
    requires HasDefaults(config) && i < |envs|
    ensures ServiceAfterPasses(prior, config, envs[..i + 1])
      == SessionAfter(ServiceAfterPasses(prior, config, envs[..i]), Pass(config, envs[i]).auth)
  {
    assert envs[..i + 1][..i] == envs[..i];
  }

  /** The ticks of a running loop whose passes meet `envs` in turn. */
  function TicksOfPasses(config: map<string, Value>, envs: seq<PassEnv>): (ts: seq<Tick>)
    requires HasDefaults(config)
    ensures |ts| == |envs|
  {
    if envs == [] then []
    else TicksOfPasses(config, envs[..|envs| - 1]) + [AfterPass(Pass(config, envs[|envs| - 1]), config[UpdateIntervalKey])]
  }

  /** Extending the passes by one adds that pass's tick. */
  lemma TicksStep(config: map<string, Value>, envs: seq<PassEnv>, i: nat)
    requires HasDefaults(config) && i < |envs|
    ensures TicksOfPasses(config, envs[..i + 1])
      == TicksOfPasses(config, envs[..i]) + [AfterPass(Pass(config, envs[i]), config[UpdateIntervalKey])]
  {
    assert envs[..i + 1][..i] == envs[..i];
  }

  /** Each tick is `AfterPass` of its own pass. */
  lemma {:induction false} TicksOfPassesAt(config: map<string, Value>, envs: seq<PassEnv>)
    requires HasDefaults(config)
    ensures forall i :: 0 <= i < |envs| ==>
      TicksOfPasses(config, envs)[i] == AfterPass(Pass(config, envs[i]), config[UpdateIntervalKey])
  {
    if envs != [] {
      var init := envs[..|envs| - 1];
      var ts := TicksOfPasses(config, envs);
      TicksOfPassesAt(config, init);
      forall i | 0 <= i < |envs|
        ensures ts[i] == AfterPass(Pass(config, envs[i]), config[UpdateIntervalKey])
      {
        if i < |init| {
          assert ts[i] == TicksOfPasses(config, init)[i];
          assert init[i] == envs[i];
        }
      }
    }
  }

  /** `self.service` after passes that meet `envs` in turn. */
  function ServiceAfterPasses(prior: Option<Session>, config: map<string, Value>, envs: seq<PassEnv>): (s: Option<Session>)
    requires HasDefaults(config)
    ensures (forall i :: 0 <= i < |envs| ==> !Pass(config, envs[i]).auth.Authenticated?) ==> s == prior
    ensures envs != [] && Pass(config, envs[|envs| - 1]).auth.Authenticated? ==>
      s == Some(Session(Pass(config, envs[|envs| - 1]).auth.via))
  {
    if envs == [] then prior
    else SessionAfter(ServiceAfterPasses(prior, config, envs[..|envs| - 1]), Pass(config, envs[|envs| - 1]).auth)
  }

  class Uploader {
    var config: map<string, Value>
    var service: Option<Session>
    var running: bool

    ghost predicate Valid()
      reads this
    {
      HasDefaults(config)
    }

    /** A new uploader: configuration loaded, no session, loop not running. */
    constructor (file: ConfigFile)
      ensures Valid()
      ensures config == LoadedConfig(file) && service == None && !running
    {
      var loaded := LoadConfig(file);
      config := loaded;
      service := None;
      running := false;
    }

    /** `load_config`: a parsed document completed key by key with the defaults
        it lacks; the defaults themselves when the file is absent or unreadable. */
    static method LoadConfig(file: ConfigFile) returns (config: map<string, Value>)
      ensures config == LoadedConfig(file)
      ensures HasDefaults(config)
      ensures file.Parsed? ==> forall k :: k in file.doc ==> k in config && config[k] == file.doc[k]
      ensures file.Parsed? ==> config.Keys == file.doc.Keys + DefaultConfig.Keys
      ensures !file.Parsed? ==> config == DefaultConfig
    {
      if !file.Parsed? {
        return DefaultConfig;
      }
      var doc := file.doc;
      config := doc;
      for i := 0 to |DefaultKeys|
        invariant config.Keys == doc.Keys + set j | 0 <= j < i :: DefaultKeys[j]
        invariant forall k :: k in config ==> config[k] == Merged(doc)[k]
      {
        var key := DefaultKeys[i];
        if key !in config {
          config := config[key := DefaultConfig[key]];
        }
      }
      DefaultKeysListDefaults();
      assert DefaultConfig.Keys == set j | 0 <= j < |DefaultKeys| :: DefaultKeys[j] by {
        forall k | k in DefaultConfig ensures exists j :: 0 <= j < |DefaultKeys| && DefaultKeys[j] == k {
          var j :| 0 <= j < |DefaultKeys| && DefaultKeys[j] == k;
        }
      }
    }

    /** `authenticate`: the credential decision, and `self.service` replaced only on success. */
    method Authenticate(env: AuthEnv) returns (outcome: AuthOutcome)
      requires Valid()
      modifies this`service
      ensures outcome == Credentials.Authenticate(config[CredentialsFileKey], env)
      ensures service == SessionAfter(old(service), outcome)
    {
      outcome := Credentials.Authenticate(config[CredentialsFileKey], env);
      if outcome.Authenticated? {
        service := Some(Session(outcome.via));
      }
    }

    /** `upload_nfe_xmls`: one pass, counting the successful uploads in a loop.
        `raised` is an exception escaping the pass; `ok` is what it returns otherwise. */
    method UploadNfeXmls(env: PassEnv) returns (raised: bool, ok: bool, successCount: nat, events: seq<Event>)
      requires Valid()
      modifies this`service
      ensures var expected := Pass(config, env);
        raised == expected.raised && ok == expected.ok && successCount == expected.successCount
        && events == expected.events
        && service == SessionAfter(old(service), expected.auth)
    {
      var auth := Authenticate(env.auth);
      events := AuthEvents(auth.calls);
      if auth.AuthRaised? {
        return true, false, 0, events;
      }
      if !auth.Authenticated? {
        return false, false, 0, events;
      }
      var dir := config[SourceDirectoryKey];
      events := events + [CheckSource(dir)];
      if !Truthy(dir) {
        return false, false, 0, events;
      }
      if ExistsRaises(dir) {
        return true, false, 0, events;
      }
      if !env.sourceExists {
        return false, false, 0, events;
      }
      var folder := ResolveFolder(config[DriveFolderKey], env.listing, env.reply);
      events := events + DriveEvents(folder.calls);
      if !IsSet(folder.folderId) || !dir.Str? {
        return false, false, 0, events;
      }
      events := events + [Glob(dir.s)];
      if env.scan.ScanFailed? {
        return false, false, 0, events;
      }
      var files := env.scan.files;
      if files == [] {
        return false, true, 0, events;
      }
      var uploaded, uploadEvents := UploadAll(files, folder.folderId);
      return false, true, uploaded, events + uploadEvents;
    }

    /** The `for` loop of `upload_nfe_xmls`: upload each file in turn and count the successes. */
    static method UploadAll(files: seq<XmlFile>, folderId: Option<string>) returns (successCount: nat, events: seq<Event>)
      ensures successCount == SuccessCount(files) && events == UploadEvents(files, folderId)
      ensures successCount <= |files|
    {
      successCount, events := 0, [];
      for i := 0 to |files|
        invariant successCount == SuccessCount(files[..i])
        invariant events == UploadEvents(files[..i], folderId)
      {
        var upload := UploadXmlFile(files[i], folderId);
        PrefixStep(files, folderId, i);
        events := events + DriveEvents(upload.calls);
        if upload.ok {
          successCount := successCount + 1;
        }
      }
      assert files[..|files|] == files;
      SuccessCountBounds(files);
    }

    /** `start_auto_upload`: sets the flag and starts the loop, unless it is already running. */
    method StartAutoUpload() returns (spawned: bool)
      modifies this`running
      ensures running
      ensures spawned <==> !old(running)
    {
      if running {
        return false;
      }
      running := true;
      spawned := true;
    }

    /** `stop_auto_upload`: clears the flag, whatever its value; the loop notices it at its next check. */
    method StopAutoUpload()
      modifies this`running
      ensures !running
    {
      running := false;
    }

    /** One iteration of `upload_loop`: exit when the flag is cleared, otherwise
        run a pass and sleep, for 60 seconds if the pass raised. The iteration
        never changes the flag. */
    method UploadLoopIteration(env: PassEnv) returns (tick: Tick)
      requires Valid()
      modifies this`service
      ensures running == old(running)
      ensures !running ==> tick == Exited && service == old(service)
      ensures running ==> tick == AfterPass(Pass(config, env), config[UpdateIntervalKey])
      ensures running ==> service == SessionAfter(old(service), Pass(config, env).auth)
    {
      if !running {
        return Exited;
      }
      var raised, ok, _, _ := UploadNfeXmls(env);
      if raised {
        tick := Slept(ok, ErrorBackoff);
      } else {
        tick := Slept(ok, NextDelay(config[UpdateIntervalKey]));
      }
    }

    /** `upload_loop` over the ticks `envs`: while the flag is set, every tick runs
        a pass and sleeps, whether the pass succeeds, fails or raises. */
    method UploadLoop(envs: seq<PassEnv>) returns (ticks: seq<Tick>)
      requires Valid()
      modifies this`service
      ensures running == old(running)
      ensures |ticks| == (if running then |envs| else 0)
      ensures forall i :: 0 <= i < |ticks| ==> ticks[i] == AfterPass(Pass(config, envs[i]), config[UpdateIntervalKey])
      ensures service == (if running then ServiceAfterPasses(old(service), config, envs) else old(service))
    {
      ticks := [];
      if !running {
        return;
      }
      for i := 0 to |envs|
        invariant running && Valid()
        invariant ticks == TicksOfPasses(config, envs[..i])
        invariant service == ServiceAfterPasses(old(service), config, envs[..i])
      {
        ServiceStep(old(service), config, envs, i);
        TicksStep(config, envs, i);
        var tick := UploadLoopIteration(envs[i]);
        ticks := ticks + [tick];
      }
      assert envs[..|envs|] == envs;
      TicksOfPassesAt(config, envs);
    }
  }

  /** Starting an uploader twice starts one loop, and stopping an idle one is harmless. */
  method StartTwiceStartsOneLoop(file: ConfigFile) returns (first: bool, second: bool)
    ensures first && !second
  {
    var uploader := new Uploader(file);
    uploader.StopAutoUpload();
    first := uploader.StartAutoUpload();
    second := uploader.StartAutoUpload();
  }

  /** Once started, the loop runs a pass on every tick, however many passes
      fail or raise, and sleeps either the configured delay or the backoff. */
  method LoopSurvivesFailures(file: ConfigFile, envs: seq<PassEnv>) returns (ticks: seq<Tick>)
    ensures |ticks| == |envs|
    ensures forall i :: 0 <= i < |ticks| ==> ticks[i].Slept?
    ensures forall i :: 0 <= i < |ticks| ==>
      ticks[i].delay == (if Pass(LoadedConfig(file), envs[i]).raised then ErrorBackoff
                         else NextDelay(LoadedConfig(file)[UpdateIntervalKey]))
  {
    var uploader := new Uploader(file);
    var _ := uploader.StartAutoUpload();
    ticks := uploader.UploadLoop(envs);
  }
}
