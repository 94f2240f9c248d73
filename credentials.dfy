/** The credential decision of `authenticate`: when to fail early, when to
    reuse the cached OAuth token, refresh it or run the full consent flow, and
    when the token file is rewritten. The OAuth library, the pickle file and
    the Drive client are inputs: each step's success is given by `AuthEnv`. */
module Credentials {
  import opened JsonValues

  /** The cached credential's flags as `google.oauth2` reports them. */
  datatype Creds = Creds(valid: bool, expired: bool, hasRefreshToken: bool)

  /** The token file `token.pickle`: missing, failing to unpickle, or holding a credential. */
  datatype TokenFile = NoTokenFile | CorruptTokenFile | Stored(creds: Creds)

  /** What the environment answers to each step `authenticate` may take. */
  datatype AuthEnv = AuthEnv(
    credentialsExists: bool,   // os.path.exists on the credentials file setting, when it answers
    token: TokenFile,
    refreshSucceeds: bool,     // creds.refresh(Request())
    flowSucceeds: bool,        // InstalledAppFlow ... run_local_server
    tokenSaveSucceeds: bool,   // pickle.dump to token.pickle
    buildSucceeds: bool)       // build('drive', 'v3', ...)

  /** The three ways to obtain a usable credential. */
  datatype AuthAction = Reuse | Refresh | FullFlow

  /** The external steps, in the order they are taken. */
  datatype AuthCall = LoadToken | RefreshCreds | RunOAuthFlow | SaveToken | BuildService

  /** The position of a step in `authenticate`: read the token, obtain a
      credential, write the token, build the service. */
  function StepRank(step: AuthCall): nat {
    match step
    case LoadToken => 0
    case RefreshCreds => 1
    case RunOAuthFlow => 1
    case SaveToken => 2
    case BuildService => 3
  }

  /** The result of `authenticate` together with the steps it took; `AuthRaised`
      is an exception escaping the call, from the guard that precedes its `try`. */
  datatype AuthOutcome =
    | Authenticated(via: AuthAction, calls: seq<AuthCall>)
    | AuthFailed(calls: seq<AuthCall>)
    | AuthRaised(calls: seq<AuthCall>)

  /** The credential in hand after the token file is read (`creds`). */
  function Cached(token: TokenFile): Option<Creds> {
    if token.Stored? then Some(token.creds) else None
  }

  /** `not creds or not creds.valid`. */
  predicate NeedsNewCreds(cached: Option<Creds>) {
    cached.None? || !cached.value.valid
  }

  /** `creds and creds.expired and creds.refresh_token`. */
  predicate CanRefresh(cached: Option<Creds>) {
    cached.Some? && cached.value.expired && cached.value.hasRefreshToken
  }

  /** Which way the credential is obtained. */
  function Decide(cached: Option<Creds>): (action: AuthAction)
    ensures action == Reuse <==> !NeedsNewCreds(cached)
    ensures action == Refresh <==> NeedsNewCreds(cached) && CanRefresh(cached)
    ensures action == FullFlow <==> NeedsNewCreds(cached) && !CanRefresh(cached)
  {
    if cached.Some? && cached.value.valid then Reuse
    else if cached.Some? && cached.value.expired && cached.value.hasRefreshToken then Refresh
    else FullFlow
  }

  /** Whether the chosen way yields a credential. */
  predicate Acquired(action: AuthAction, env: AuthEnv) {
    match action
    case Reuse => true
    case Refresh => env.refreshSucceeds
    case FullFlow => env.flowSucceeds
  }

  /** The guard before the `try` passes: a non-empty credentials setting naming an existing file. */
  predicate CredentialsFound(credentialsFile: Value, env: AuthEnv) {
    Truthy(credentialsFile) && !ExistsRaises(credentialsFile) && env.credentialsExists
  }

  /** One call of `authenticate` with the credentials-file setting `credentialsFile`. */
  function Authenticate(credentialsFile: Value, env: AuthEnv): (o: AuthOutcome)
    // the existence check raises out of the call before any step
    ensures o.AuthRaised? <==> ExistsRaises(credentialsFile)
    ensures o.AuthRaised? ==> o.calls == []
    // early failure: nothing is read, written or built
    ensures !CredentialsFound(credentialsFile, env) && !ExistsRaises(credentialsFile) ==> o == AuthFailed([])
    // a token file that cannot be unpickled fails the call right after reading it
    ensures CredentialsFound(credentialsFile, env) && env.token.CorruptTokenFile? ==> o == AuthFailed([LoadToken])
    ensures CredentialsFound(credentialsFile, env) && !env.token.CorruptTokenFile? ==>
      var cached := Cached(env.token);
      && (LoadToken in o.calls <==> env.token.Stored?)
      // refresh only an expired, refreshable, invalid credential; a failed refresh does not fall back to the flow
      && (RefreshCreds in o.calls <==> NeedsNewCreds(cached) && CanRefresh(cached))
      && (RunOAuthFlow in o.calls <==> NeedsNewCreds(cached) && !CanRefresh(cached))
      // the token file is rewritten exactly when a new credential had to be obtained and was
      && (SaveToken in o.calls <==> NeedsNewCreds(cached) && Acquired(Decide(cached), env))
      && (o.Authenticated? <==>
            Acquired(Decide(cached), env) && (NeedsNewCreds(cached) ==> env.tokenSaveSucceeds) && env.buildSucceeds)
      && (o.Authenticated? ==> o.via == Decide(cached) && o.calls[|o.calls| - 1] == BuildService)
  {
    if !Truthy(credentialsFile) then AuthFailed([])
    else if ExistsRaises(credentialsFile) then AuthRaised([])
    else if !env.credentialsExists then AuthFailed([])
    else if env.token.CorruptTokenFile? then AuthFailed([LoadToken])
    else
      var loaded := if env.token.Stored? then [LoadToken] else [];
      var action := Decide(Cached(env.token));
      if action == Reuse then Build(loaded, action, env)
      else
        var step := if action == Refresh then RefreshCreds else RunOAuthFlow;
        if !Acquired(action, env) then AuthFailed(loaded + [step])
        else if !env.tokenSaveSucceeds then AuthFailed(loaded + [step, SaveToken])
        else Build(loaded + [step, SaveToken], action, env)
  }

  /** Steps in source order, each at most once. */
  predicate InStepOrder(calls: seq<AuthCall>) {
    forall i, j :: 0 <= i < j < |calls| ==> StepRank(calls[i]) < StepRank(calls[j])
  }

  /** A failed refresh, flow or token write jumps to the `except` before the
      service is built. */
  lemma BuildOnlyAfterAcquiring(credentialsFile: Value, env: AuthEnv)
    requires CredentialsFound(credentialsFile, env) && !env.token.CorruptTokenFile?
    ensures var cached := Cached(env.token);
      BuildService in Authenticate(credentialsFile, env).calls <==>
        Acquired(Decide(cached), env) && (NeedsNewCreds(cached) ==> env.tokenSaveSucceeds)
  {
  }

  /** The steps of `authenticate` are taken in source order, each at most once. */
  lemma AuthenticateStepOrder(credentialsFile: Value, env: AuthEnv)
    ensures InStepOrder(Authenticate(credentialsFile, env).calls)
  {
    var o := Authenticate(credentialsFile, env);
    if CredentialsFound(credentialsFile, env) && !env.token.CorruptTokenFile? {
      var loaded := if env.token.Stored? then [LoadToken] else [];
      var action := Decide(Cached(env.token));
      var step := if action == Refresh then RefreshCreds else RunOAuthFlow;
      var full := loaded + (if action == Reuse then [] else [step, SaveToken]) + [BuildService];
      FullStepsInOrder(loaded, action == Reuse, step);
      assert |o.calls| <= |full| && o.calls == full[..|o.calls|];
      PrefixInStepOrder(full, |o.calls|);
    }
  }

  /** The longest run of steps a call can take is in source order. */
  lemma FullStepsInOrder(loaded: seq<AuthCall>, reuse: bool, step: AuthCall)
    requires loaded == [] || loaded == [LoadToken]
    requires step == RefreshCreds || step == RunOAuthFlow
    ensures InStepOrder(loaded + (if reuse then [] else [step, SaveToken]) + [BuildService])
  {
    var full := loaded + (if reuse then [] else [step, SaveToken]) + [BuildService];
    forall i, j | 0 <= i < j < |full| ensures StepRank(full[i]) < StepRank(full[j]) {
      assert StepRank(full[i]) < 3 ==> i < |full| - 1;
    }
  }

  /** A prefix of steps in source order is in source order. */
  lemma PrefixInStepOrder(calls: seq<AuthCall>, n: nat)
    requires InStepOrder(calls) && n <= |calls|
    ensures InStepOrder(calls[..n])
  {
  }

  /** The last step: building the Drive service from the credential. */
  function Build(taken: seq<AuthCall>, action: AuthAction, env: AuthEnv): (o: AuthOutcome)
    ensures o.calls == taken + [BuildService]
    ensures o.Authenticated? <==> env.buildSucceeds
    ensures o.Authenticated? ==> o.via == action
  {
    if env.buildSucceeds then Authenticated(action, taken + [BuildService])
    else AuthFailed(taken + [BuildService])
  }

  /** An authenticated Drive handle, tagged with how its credential was obtained. */
  datatype Session = Session(via: AuthAction)

  /** `self.service` after a call: replaced on success, left as it was otherwise. */
  function SessionAfter(prior: Option<Session>, o: AuthOutcome): (s: Option<Session>)
    ensures !o.Authenticated? ==> s == prior
    ensures o.Authenticated? ==> s == Some(Session(o.via))
  {
    if o.Authenticated? then Some(Session(o.via)) else prior
  }

  /** A call that finds a valid credential in the token file reuses it: no
      refresh, no flow, no token write. */
  lemma ValidTokenIsReused(credentialsFile: Value, env: AuthEnv, c: Creds)
    requires CredentialsFound(credentialsFile, env)
    requires env.token == Stored(c) && c.valid
    ensures var o := Authenticate(credentialsFile, env);
      RefreshCreds !in o.calls && RunOAuthFlow !in o.calls && SaveToken !in o.calls
    ensures env.buildSucceeds ==> Authenticate(credentialsFile, env) == Authenticated(Reuse, [LoadToken, BuildService])
  {
  }
}
