/**
 * The `login` command: pick a profile, an environment and a role, exchange the
 * profile's long-lived credentials and an MFA code for temporary role
 * credentials, and cache them as a session in the configuration.
 *
 * Everything the handler obtains from outside (the STS client, the ARN
 * helpers, the prompts, the operating-system user name and the clock) is
 * passed in as a parameter.
 */
module LoginAction {
  import opened Wrappers
  import opened Strings
  import opened ConfigStore
  import opened Sessions

  /** An error raised by the STS client: its `code` and `message` properties. */
  datatype ProviderError = ProviderError(code: string, message: string)

  /** The `Credentials` of an `assumeRole` response. */
  datatype Credentials = Credentials(accessKeyId: string, secretAccessKey: string,
                                     sessionToken: string, expiration: string)

  /** The `getCallerIdentity` response: the hub account and the caller's ARN. */
  datatype CallerIdentity = CallerIdentity(account: string, arn: string)

  /** The parameters of `assumeRole`. */
  datatype AssumeRoleRequest = AssumeRoleRequest(roleArn: string, roleSessionName: string,
                                                 serialNumber: string, tokenCode: string,
                                                 durationSeconds: int)

  /**
   * The answers of the five prompts: the profile index, the environment index,
   * the role name, the duration in hours and the MFA code.
   */
  datatype Answers = Answers(profile: nat, environment: nat, role: string, hours: int, mfaCode: string)

  /** The collaborators of the handler, each reduced to the value or function it supplies. */
  datatype Externals = Externals(
    osUsername: string,                                           // os.userInfo().username
    timestamp: string,                                            // Date.now(), in decimal
    callerIdentity: Result<CallerIdentity, ProviderError>,        // STS.getCallerIdentity()
    assumeRole: AssumeRoleRequest -> Result<Credentials, ProviderError>, // STS.assumeRole(params)
    constructRoleArn: (string, string) -> string,                 // AWSUtils.constructRoleArn
    constructMfaArn: (string, string) -> string)                  // AWSUtils.constructMfaArn

  /** How a failed `assumeRole` is reported. */
  datatype ErrorKind = DurationExceeded | WrongMfa | AccessDenied | Rethrow

  /** Why a login stops; each of these ends the command without saving. */
  datatype LoginError =
    | NoProfiles
    | NoEnvironments
    | CallerIdentityFailed(cause: ProviderError)
    | AssumeRoleFailed(kind: ErrorKind, cause: ProviderError)

  /**
   * The ordered classification of an `assumeRole` error: a message mentioning
   * "Duration" wins over everything, then an MFA message, then the
   * AccessDenied code; anything else is rethrown.
   */
  function Classify(code: string, message: string): (k: ErrorKind)
    ensures k == DurationExceeded <==> Contains(message, "Duration")
    ensures k == WrongMfa <==>
      !Contains(message, "Duration") &&
      (Contains(message, "MultiFactorAuthentication") || Contains(message, "MFA"))
    ensures k == AccessDenied <==>
      !Contains(message, "Duration") && !Contains(message, "MultiFactorAuthentication") &&
      !Contains(message, "MFA") && code == "AccessDenied"
    ensures k == Rethrow <==>
      !Contains(message, "Duration") && !Contains(message, "MultiFactorAuthentication") &&
      !Contains(message, "MFA") && code != "AccessDenied"
  {
    if Contains(message, "Duration") then DurationExceeded
    else if Contains(message, "MultiFactorAuthentication") || Contains(message, "MFA") then WrongMfa
    else if code == "AccessDenied" then AccessDenied
    else Rethrow
  }

  /** "Duration" anywhere in the message classifies as DurationExceeded, whatever else it says. */
  lemma DurationMentionWins(code: string, pre: string, post: string)
    ensures Classify(code, pre + "Duration" + post) == DurationExceeded
  {
    ContainsInfix(pre, "Duration", post);
  }

  /** A message mentioning MFA but not "Duration" is a wrong MFA code, whatever the error code. */
  lemma MfaMentionIsWrongMfa(code: string, pre: string, post: string)
    requires !Contains(pre + "MFA" + post, "Duration")
    ensures Classify(code, pre + "MFA" + post) == WrongMfa
  {
    ContainsInfix(pre, "MFA", post);
  }

  /** `DurationSeconds: duration * 3600`, whole hours as seconds. */
  function DurationSeconds(hours: int): (seconds: int)
    ensures seconds % 3600 == 0 && seconds / 3600 == hours
    ensures 1 <= hours <= 12 ==> 3600 <= seconds <= 43200
  {
    hours * 3600
  }

  /**
   * `UserArn.split('/').pop()`: the text after the last '/' of the caller's
   * ARN, or the whole ARN when it has no '/'.
   */
  function Username(callerArn: string): (u: string)
    ensures '/' !in u
    ensures |u| <= |callerArn| && callerArn[|callerArn| - |u|..] == u
    ensures |u| < |callerArn| ==> callerArn[|callerArn| - |u| - 1] == '/'
    ensures '/' !in callerArn ==> u == callerArn
  {
    LastPartIsFinalSegment(callerArn, '/');
    Last(Split(callerArn, '/'))
  }

  /** The cache key `${profile.name}/${envName}/${role}`: the three fields joined by '/'. */
  function SessionName(profileName: string, envName: string, role: string): (name: string)
    ensures name == Join([profileName, envName, role], '/')
  {
    var fields := [profileName, envName, role];
    assert fields[1..] == [envName, role] && fields[1..][1..] == [role];
    calc {
      Join(fields, '/');
      profileName + "/" + Join(fields[1..], '/');
      profileName + "/" + (envName + "/" + role);
    }
    profileName + "/" + envName + "/" + role
  }

  /** `${os user}-${username}-${envName}-${role}-${Date.now()}`: the five fields joined by '-'. */
  function RoleSessionName(osUser: string, username: string, envName: string, role: string,
                           timestamp: string): (name: string)
    ensures name == Join([osUser, username, envName, role, timestamp], '-')
  {
    var fields := [osUser, username, envName, role, timestamp];
    assert fields[1..] == [username, envName, role, timestamp];
    assert fields[1..][1..] == [envName, role, timestamp];
    assert fields[1..][1..][1..] == [role, timestamp];
    assert fields[1..][1..][1..][1..] == [timestamp];
    calc {
      Join(fields, '-');
      osUser + "-" + Join(fields[1..], '-');
      osUser + "-" + (username + "-" + Join(fields[1..][1..], '-'));
      osUser + "-" + (username + "-" + (envName + "-" + Join(fields[1..][1..][1..], '-')));
      osUser + "-" + (username + "-" + (envName + "-" + (role + "-" + timestamp)));
    }
    osUser + "-" + username + "-" + envName + "-" + role + "-" + timestamp
  }

  /** The cache key splits back at '/' into its three components when none of them holds a '/'. */
  lemma SessionNameFields(p: string, e: string, r: string)
    requires '/' !in p && '/' !in e && '/' !in r
    ensures Split(SessionName(p, e, r), '/') == [p, e, r]
  {
    SplitJoin([p, e, r], '/');
  }

  /** Distinct slash-free profile/environment/role triples get distinct cache keys. */
  lemma SessionNameInjective(p: string, e: string, r: string, p': string, e': string, r': string)
    requires '/' !in p && '/' !in e && '/' !in r && '/' !in p' && '/' !in e' && '/' !in r'
    requires SessionName(p, e, r) == SessionName(p', e', r')
    ensures p == p' && e == e' && r == r'
  {
    SessionNameFields(p, e, r);
    SessionNameFields(p', e', r');
  }

  /**
   * Names holding a '/' can collide: profile "a/b" with environment "c" and
   * profile "a" with environment "b/c" share the key "a/b/c/d" for role "d",
   * so a login to one replaces the session cached for the other.
   */
  lemma SessionNameCollision()
    ensures SessionName("a/b", "c", "d") == SessionName("a", "b/c", "d")
    ensures "a/b" != "a" && "c" != "b/c"
  {
  }

  /** The role session name splits back at '-' into its five fields when none of them holds a '-'. */
  lemma RoleSessionNameFields(o: string, u: string, e: string, r: string, t: string)
    requires '-' !in o && '-' !in u && '-' !in e && '-' !in r && '-' !in t
    ensures Split(RoleSessionName(o, u, e, r, t), '-') == [o, u, e, r, t]
  {
    SplitJoin([o, u, e, r, t], '-');
  }

  /** The prompts return one of the offered choices whenever there is one to offer. */
  predicate AnswersFit(cfg: Config, a: Answers) {
    |cfg.profiles| > 0 ==>
      && a.profile < |cfg.profiles|
      && (|cfg.profiles[a.profile].environments| > 0 ==>
            a.environment < |cfg.profiles[a.profile].environments|)
  }

  /**
   * The `stsParams` object handed to `assumeRole`: the role ARN of the chosen
   * account and role, the role session name, the MFA device ARN of the caller
   * in the hub account, the code typed and the duration in seconds.
   */
  function StsParams(env: Environment, id: CallerIdentity, a: Answers, x: Externals): (req: AssumeRoleRequest)
    ensures req.roleArn == x.constructRoleArn(env.accountId, a.role)
    ensures req.roleSessionName == Join([x.osUsername, Username(id.arn), env.name, a.role, x.timestamp], '-')
    ensures req.serialNumber == x.constructMfaArn(id.account, Username(id.arn))
    ensures req.tokenCode == a.mfaCode
    ensures req.durationSeconds / 3600 == a.hours && req.durationSeconds % 3600 == 0
  {
    var username := Username(id.arn);
    AssumeRoleRequest(
      x.constructRoleArn(env.accountId, a.role),
      RoleSessionName(x.osUsername, username, env.name, a.role, x.timestamp),
      x.constructMfaArn(id.account, username),
      a.mfaCode,
      DurationSeconds(a.hours))
  }

  /**
   * The `newSession` record: keyed by profile/environment/role, in the
   * environment's region, holding the returned temporary credentials.
   */
  function NewSession(profileName: string, env: Environment, role: string, c: Credentials): (s: Session)
    ensures s.name == Join([profileName, env.name, role], '/')
    ensures s.region == env.region
    ensures s.keyId == c.accessKeyId && s.key == c.secretAccessKey
    ensures s.sessionToken == c.sessionToken && s.expiry == c.expiration
  {
    Session(SessionName(profileName, env.name, role), env.region,
            c.accessKeyId, c.secretAccessKey, c.sessionToken, c.expiration)
  }

  /**
   * The decisions of the login command up to the save: the empty-list guards,
   * the identity and role-assumption exchanges with their error
   * classification, and the session record to cache.
   */
  function Authenticate(cfg: Config, a: Answers, x: Externals): (r: Result<Session, LoginError>)
    requires AnswersFit(cfg, a)
    ensures |cfg.profiles| == 0 ==> r == Failure(NoProfiles)
    ensures |cfg.profiles| > 0 && |cfg.profiles[a.profile].environments| == 0 ==>
      r == Failure(NoEnvironments)
    ensures (|cfg.profiles| > 0 && |cfg.profiles[a.profile].environments| > 0 && x.callerIdentity.Failure?)
      ==> r == Failure(CallerIdentityFailed(x.callerIdentity.error))
    ensures (|cfg.profiles| > 0 && |cfg.profiles[a.profile].environments| > 0 && x.callerIdentity.Success?)
      ==> var p := cfg.profiles[a.profile];
          var e := p.environments[a.environment];
          var resp := x.assumeRole(StsParams(e, x.callerIdentity.value, a, x));
          && (resp.Success? ==> r == Success(NewSession(p.name, e, a.role, resp.value)))
          && (resp.Failure? ==>
                r == Failure(AssumeRoleFailed(Classify(resp.error.code, resp.error.message), resp.error)))
    ensures r.Success? ==>
      && |cfg.profiles| > 0
      && var p := cfg.profiles[a.profile];
      && |p.environments| > 0
      && var e := p.environments[a.environment];
      && x.callerIdentity.Success?
      && var resp := x.assumeRole(StsParams(e, x.callerIdentity.value, a, x));
      && resp.Success?
      && r.value.name == p.name + "/" + e.name + "/" + a.role
      && r.value.region == e.region
      && r.value.keyId == resp.value.accessKeyId
      && r.value.key == resp.value.secretAccessKey
      && r.value.sessionToken == resp.value.sessionToken
      && r.value.expiry == resp.value.expiration
  {
    if |cfg.profiles| == 0 then Failure(NoProfiles)
    else
      var profile := cfg.profiles[a.profile];
      if |profile.environments| == 0 then Failure(NoEnvironments)
      else
        var env := profile.environments[a.environment];
        match x.callerIdentity
        case Failure(err) => Failure(CallerIdentityFailed(err))
        case Success(id) =>
          match x.assumeRole(StsParams(env, id, a, x))
          case Failure(err) => Failure(AssumeRoleFailed(Classify(err.code, err.message), err))
          case Success(creds) => Success(NewSession(profile.name, env, a.role, creds))
  }

  /**
   * The `login` handler from the configuration as `loadCliConfig` returned it,
   * with the passphrase that opened the file (none for a plain file): every
   * failure leaves the file untouched; a success upserts the new session into
   * the cached sessions and saves the configuration once, under the same
   * passphrase.
   */
  method Login(file: ConfigFile, cfg: Config, passphrase: Option<Key>, a: Answers, x: Externals)
    returns (r: Result<Session, LoginError>)
    requires passphrase.Some? ==> Decrypt(file.stored, passphrase.value) == Some(cfg)
    requires passphrase.None? ==> file.stored == Plain(cfg)
    requires AnswersFit(cfg, a)
    modifies file
    ensures r == Authenticate(cfg, a, x)
    ensures r.Failure? ==> unchanged(file)
    ensures r.Success? ==>
      && file.saves == old(file.saves) + 1
      && file.stored == Persisted(cfg.(sessions := Upserted(cfg.sessions, r.value)), passphrase)
  {
    r := Authenticate(cfg, a, x);
    if r.Failure? {
      return;
    }
    var cache := new SessionCache(cfg.sessions);
    cache.Upsert(r.value);
    var updated := cfg.(sessions := cache.entries);
    file.SaveAsIs(Persisted(updated, passphrase));
  }

  /** With no saved profiles the command stops before anything else, and saves nothing. */
  lemma NoProfilesAborts(cfg: Config, a: Answers, x: Externals)
    requires |cfg.profiles| == 0
    ensures Authenticate(cfg, a, x) == Failure(NoProfiles)
  {
  }

  /** A rejected `assumeRole` ends the command with that error, classified, so no session is cached. */
  lemma RejectedAssumeRoleAborts(cfg: Config, a: Answers, x: Externals, err: ProviderError)
    requires AnswersFit(cfg, a) && |cfg.profiles| > 0
    requires |cfg.profiles[a.profile].environments| > 0 && x.callerIdentity.Success?
    requires x.assumeRole(StsParams(cfg.profiles[a.profile].environments[a.environment],
                                    x.callerIdentity.value, a, x)) == Failure(err)
    ensures Authenticate(cfg, a, x) == Failure(AssumeRoleFailed(Classify(err.code, err.message), err))
  {
  }

  /**
   * An `assumeRole` error whose message mentions "Duration" is reported as an
   * exceeded duration limit, and no session is cached.
   */
  lemma DurationErrorIsNotCached(cfg: Config, a: Answers, x: Externals, code: string, pre: string, post: string)
    requires AnswersFit(cfg, a) && |cfg.profiles| > 0
    requires |cfg.profiles[a.profile].environments| > 0 && x.callerIdentity.Success?
    requires x.assumeRole(StsParams(cfg.profiles[a.profile].environments[a.environment],
                                    x.callerIdentity.value, a, x))
             == Failure(ProviderError(code, pre + "Duration" + post))
    ensures Authenticate(cfg, a, x) ==
      Failure(AssumeRoleFailed(DurationExceeded, ProviderError(code, pre + "Duration" + post)))
  {
    DurationMentionWins(code, pre, post);
  }
}
