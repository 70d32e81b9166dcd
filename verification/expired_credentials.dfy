/** The stand-alone audit script: the same pass as the lambda with a 30-day
    login threshold, each finding printed as one console line without a
    trailing newline.

    The script starts each user's key scan without awaiting it; the model
    runs the key scan to its end before the user's login check, as if each
    call completed in sequence. */
module ExpiredCredentials {

  import opened Wrappers
  import opened Paging
  import opened Iam
  import opened Audit
  import CheckUsers

  /** Login inactivity threshold of the script, in days. */
  const LoginMaxAgeDays: int := 30

  /** Finished: the user loop ended. Crashed: a listing request was
      rejected, which rejects the script's top-level promise. StillRunning:
      a paging loop had not finished when the fuel ran out. */
  datatype End = Finished | Crashed | StillRunning

  /** The lines printed so far, and how the run ended. */
  datatype ScriptRun = ScriptRun(output: seq<string>, end: End)

  function ScriptPolicy(now: int): Policy {
    Policy(now, LoginMaxAgeDays, DiscardMarker)
  }

  /** Lines are printed as findings are made, so a run that stops early
      has still printed the lines found before it stopped. */
  function Run(store: Store, now: int, fuel: nat): (r: ScriptRun)
    ensures var scan := AuditPass(store, ScriptPolicy(now), fuel);
            && |r.output| == |scan.findings|
            && (forall i :: 0 <= i < |r.output| ==> r.output[i] == Line(scan.findings[i]))
            && (r.end == Finished <==> scan.stop == Complete)
            && (r.end == Crashed <==> scan.stop == ListFailed)
  {
    var scan := AuditPass(store, ScriptPolicy(now), fuel);
    var end := match scan.stop
      case Complete => Finished
      case ListFailed => Crashed
      case OutOfFuel => StillRunning;
    ScriptRun(Lines(scan.findings), end)
  }

  /** The script's login boundary: 30 days is reported, 29 is not, and a
      user without a recorded password use never is. */
  lemma LoginBoundary(name: string, now: int)
    ensures LoginFinding(User(name, Some(now - 30 * Age.MsPerDay)), now, LoginMaxAgeDays)
            == [NoLogin(name, 30)]
    ensures LoginFinding(User(name, Some(now - 29 * Age.MsPerDay)), now, LoginMaxAgeDays) == []
    ensures LoginFinding(User(name, None), now, LoginMaxAgeDays) == []
  {
    Age.AgeOfWholeDays(now, 30, 0);
    Age.AgeOfWholeDays(now, 29, 0);
  }

  /** Every line the lambda would report, the script prints too, and the
      two stop in the same way: the thresholds are the only difference. */
  lemma ScriptCoversLambda(store: Store, now: int, fuel: nat)
    ensures var lambda := AuditPass(store, Policy(now, CheckUsers.LoginMaxAgeDays, DiscardMarker), fuel);
            var script := AuditPass(store, ScriptPolicy(now), fuel);
            && lambda.stop == script.stop
            && (forall f :: f in lambda.findings ==> f in script.findings)
  {
    UserLoopThresholdMonotone(store, Policy(now, CheckUsers.LoginMaxAgeDays, DiscardMarker), ScriptPolicy(now), None, fuel, fuel);
  }

  /** As written, a store whose user listing is a chain and whose every
      listed user has a single key page is audited completely: the script
      prints the reference findings, one line each, and finishes. */
  lemma RunReadsChains(store: Store, now: int, pages: seq<Page<User>>,
                       keyChains: map<string, seq<Page<AccessKey>>>, fuel: nat)
    requires Chain(store.users, None, pages)
    requires |pages| <= fuel
    requires HasKeyChains(store, Entries(pages), keyChains, fuel, DiscardMarker)
    ensures Run(store, now, fuel) == ScriptRun(Lines(Expected(Entries(pages), keyChains, ScriptPolicy(now))), Finished)
  {
    UserLoopReadsChains(store, ScriptPolicy(now), None, pages, keyChains, fuel, fuel);
  }

  /** When the first listed user's first key page is truncated, the script
      prints that page's stale-key lines once per request and never
      finishes. */
  lemma TruncatedKeysRepeatLines(store: Store, now: int, fuel: nat)
    requires fuel >= 1
    requires None in store.users && store.users[None].entries != []
    requires var keys := KeysOf(store, store.users[None].entries[0].userName);
             None in keys && keys[None].isTruncated
    ensures var keys := KeysOf(store, store.users[None].entries[0].userName);
            Run(store, now, fuel) == ScriptRun(Lines(Repeat(StaleKeys(keys[None].entries, now), fuel)), StillRunning)
  {
    KeyLoopAsWrittenRepeats(KeysOf(store, store.users[None].entries[0].userName), now, fuel);
  }
}
