/** The scheduled credential-check lambda: run the audit pass with an
    80-day login threshold, and post the report to Slack when it is not
    empty. The webhook call itself is an input: the response it returned,
    or a rejection of the post. */
module CheckUsers {

  import opened Wrappers
  import opened Paging
  import opened Iam
  import opened Audit
  import opened Delivery
  import Text

  /** Login inactivity threshold of the lambda, in days. */
  const LoginMaxAgeDays: int := 80

  /** The result of `postMessage`: a response, or a rejection, which comes
      from an error on the response stream or from a throw while the
      request is built (an unset or non-string webhook path, a URL that is
      not https). */
  datatype PostResult = Delivered(response: Response) | PostRejected

  /** How the invocation ends: the handler returned without calling the
      callback (nothing to report), it called the callback, or a paging
      loop was still running when the fuel ran out. */
  datatype Completion = ReturnedSilently | Callback(arg: CallbackArg) | Running

  /** What an invocation does: the Slack text it posts, if any, and how it
      ends. */
  datatype Invocation = Invocation(posted: Option<string>, completion: Completion)

  function Header(prefix: string): string {
    "*Problems found on users of account " + prefix + "*"
  }

  /** The posted text: the header line, then the report. */
  function SlackText(prefix: string, report: string): (t: string)
    ensures |t| > |report|
    ensures t[|t| - |report|..] == report
  {
    Header(prefix) + "\n" + report
  }

  /** The handler for a given policy. A failed listing is caught and
      reported through the callback; the report is posted only when the
      pass completed and found something. */
  function HandleWith(store: Store, policy: Policy, prefix: string, post: PostResult, fuel: nat): (r: Invocation)
    ensures var scan := AuditPass(store, policy, fuel);
            && (r.posted.Some? <==> scan.stop == Complete && scan.findings != [])
            && (r.posted.Some? ==> r.posted.value == SlackText(prefix, ReportText(scan.findings)))
            && (r.completion == ReturnedSilently <==> scan.stop == Complete && scan.findings == [])
            && (r.completion == Running <==> scan.stop == OutOfFuel)
            && (scan.stop == ListFailed ==> r.completion == Callback(SerializedError))
  {
    var scan := AuditPass(store, policy, fuel);
    match scan.stop
    case OutOfFuel => Invocation(None, Running)
    case ListFailed => Invocation(None, Callback(SerializedError))
    case Complete =>
      var msg := ReportText(scan.findings);
      if |msg| > 0 then
        var arg := match post
          case PostRejected => SerializedError
          case Delivered(resp) => CallbackFor(Classify(resp));
        Invocation(Some(SlackText(prefix, msg)), Callback(arg))
      else
        Invocation(None, ReturnedSilently)
  }

  /** The lambda as written: the key loop loses its marker. */
  function Handler(store: Store, now: int, prefix: string, post: PostResult, fuel: nat): (r: Invocation)
    ensures var scan := AuditPass(store, Policy(now, LoginMaxAgeDays, DiscardMarker), fuel);
            && (r.posted.Some? <==> scan.stop == Complete && scan.findings != [])
            && (r.posted.Some? ==> r.posted.value == SlackText(prefix, ReportText(scan.findings)))
            && (r.completion == Running <==> scan.stop == OutOfFuel)
  {
    HandleWith(store, Policy(now, LoginMaxAgeDays, DiscardMarker), prefix, post, fuel)
  }

  /** The lambda with the key loop carrying its marker forward. */
  function CorrectedHandler(store: Store, now: int, prefix: string, post: PostResult, fuel: nat): Invocation {
    HandleWith(store, Policy(now, LoginMaxAgeDays, CarryMarker), prefix, post, fuel)
  }

  /** The lambda as written, on a store whose user listing is a chain and
      whose every listed user has a single key page: it posts the reference
      report when there is one, and otherwise returns without a callback. */
  lemma HandlerReadsChains(store: Store, now: int, prefix: string, post: PostResult, pages: seq<Page<User>>,
                           keyChains: map<string, seq<Page<AccessKey>>>, fuel: nat)
    requires Chain(store.users, None, pages)
    requires |pages| <= fuel
    requires HasKeyChains(store, Entries(pages), keyChains, fuel, DiscardMarker)
    ensures var report := Expected(Entries(pages), keyChains, Policy(now, LoginMaxAgeDays, DiscardMarker));
            var r := Handler(store, now, prefix, post, fuel);
            && (report != [] ==> r.posted == Some(SlackText(prefix, ReportText(report))))
            && (report == [] ==> r == Invocation(None, ReturnedSilently))
  {
    UserLoopReadsChains(store, Policy(now, LoginMaxAgeDays, DiscardMarker), None, pages, keyChains, fuel, fuel);
  }

  /** After a completed pass with findings, the callback argument follows
      the webhook status: null below 500, an error text from 500 up, and a
      serialised exception when the post was rejected. */
  lemma PostedOutcome(store: Store, policy: Policy, prefix: string, post: PostResult, fuel: nat)
    requires AuditPass(store, policy, fuel).stop == Complete && AuditPass(store, policy, fuel).findings != []
    ensures var r := HandleWith(store, policy, prefix, post, fuel);
            && (post.PostRejected? ==> r.completion == Callback(SerializedError))
            && (post.Delivered? && post.response.statusCode < 500 ==> r.completion == Callback(Null))
            && (post.Delivered? && post.response.statusCode >= 500 ==>
                  r.completion.Callback? && r.completion.arg.ErrorText?)
  {
  }

  /** Split at its newlines, a posted text is the header, then one line
      per finding in report order, then the empty piece after the final
      newline. */
  lemma SlackTextLines(prefix: string, fs: seq<Finding>)
    requires '\n' !in prefix
    requires forall f :: f in fs ==> PlainNames(f)
    ensures Text.Split(SlackText(prefix, ReportText(fs)), '\n', []) == [Header(prefix)] + Lines(fs) + [""]
  {
    var h := Header(prefix);
    var report := ReportText(fs);
    HeaderIsSingle(prefix);
    assert SlackText(prefix, report) == h + ['\n'] + report;
    Text.SplitStep(h, report, '\n', []);
    assert [] + h == h;
    ReportTextLines(fs);
  }

  lemma HeaderIsSingle(prefix: string)
    requires '\n' !in prefix
    ensures '\n' !in Header(prefix)
  {
    var a := "*Problems found on users of account ";
    assert Header(prefix) == a + prefix + "*";
    assert forall i :: 0 <= i < |a| ==> a[i] != '\n';
  }

  /** A store with no users produces no post and no callback. */
  lemma EmptyStoreIsSilent(now: int, prefix: string, post: PostResult, fuel: nat)
    requires fuel >= 1
    ensures Handler(Store(map[None := Page([], false, None)], map[]), now, prefix, post, fuel)
            == Invocation(None, ReturnedSilently)
  {
  }

  function AliceStore(now: int): Store {
    var alice := User("alice", Some(now - 10 * Age.MsPerDay));
    var key := AccessKey("alice", "AKIA1", "Active", now - 91 * Age.MsPerDay);
    Store(map[None := Page([alice], false, None)],
          map["alice" := map[None := Page([key], false, None)]])
  }

  /** One user, alice, with one active key created 91 days ago and a
      password last used 10 days ago: the pass finds only the key. */
  lemma AliceScan(now: int, fuel: nat)
    requires fuel >= 1
    ensures AuditPass(AliceStore(now), Policy(now, LoginMaxAgeDays, DiscardMarker), fuel)
            == Scan([KeyTooOld("alice", "AKIA1", "Active", 91)], Complete)
  {
    var store := AliceStore(now);
    var alice := User("alice", Some(now - 10 * Age.MsPerDay));
    var key := AccessKey("alice", "AKIA1", "Active", now - 91 * Age.MsPerDay);
    var policy := Policy(now, LoginMaxAgeDays, DiscardMarker);
    var finding := KeyTooOld("alice", "AKIA1", "Active", 91);
    assert StaleKeys([key], now) == [finding] by {
      Age.AgeOfWholeDays(now, 91, 0);
    }
    assert KeyLoop(KeysOf(store, "alice"), None, DiscardMarker, now, fuel) == Scan([finding], Complete);
    assert LoginFinding(alice, now, LoginMaxAgeDays) == [] by {
      Age.AgeOfWholeDays(now, 10, 0);
    }
    assert UsersScan(store, policy, [alice], fuel) == Scan([finding], Complete);
  }

  /** The lambda posts, for the alice store, the header and one line: the
      key line with age 91, printed as "91". */
  lemma AliceScenario(now: int, prefix: string, post: PostResult, fuel: nat)
    requires fuel >= 1
    ensures Handler(AliceStore(now), now, prefix, post, fuel).posted
            == Some(SlackText(prefix, Line(KeyTooOld("alice", "AKIA1", "Active", 91)) + "\n"))
    ensures Decimal.IntToDecimal(91) == "91"
  {
    AliceScan(now, fuel);
    var finding := KeyTooOld("alice", "AKIA1", "Active", 91);
    assert ReportText([finding]) == Line(finding) + "\n" + ReportText([]);
    assert Line(finding) + "\n" + "" == Line(finding) + "\n";
    assert Decimal.NatToDecimal(9) == "9";
  }

  /** A store where bob's access keys span two pages. */
  function TwoKeyPageStore(k1: AccessKey, k2: AccessKey): Store {
    var bob := User("bob", None);
    Store(map[None := Page([bob], false, None)],
          map["bob" := map[None := Page([k1], true, Some("m")), Some("m") := Page([k2], false, None)]])
  }

  /** As written, the lambda never finishes on that store, however many
      requests it may make: it keeps asking for bob's first key page. */
  lemma TwoKeyPagesAsWritten(k1: AccessKey, k2: AccessKey, now: int, prefix: string, post: PostResult, fuel: nat)
    ensures Handler(TwoKeyPageStore(k1, k2), now, prefix, post, fuel) == Invocation(None, Running)
  {
    var store := TwoKeyPageStore(k1, k2);
    var policy := Policy(now, LoginMaxAgeDays, DiscardMarker);
    if fuel >= 1 {
      KeyLoopAsWrittenCompletes(KeysOf(store, "bob"), now, fuel);
      assert UsersScan(store, policy, [User("bob", None)], fuel).stop == OutOfFuel;
    }
  }

  /** With the marker carried forward, two requests per loop suffice and
      both pages' stale keys are found, first page first. */
  lemma TwoKeyPagesScan(k1: AccessKey, k2: AccessKey, now: int, fuel: nat)
    requires fuel >= 2
    ensures AuditPass(TwoKeyPageStore(k1, k2), Policy(now, LoginMaxAgeDays, CarryMarker), fuel)
            == Scan(StaleKeys([k1, k2], now), Complete)
  {
    var store := TwoKeyPageStore(k1, k2);
    var policy := Policy(now, LoginMaxAgeDays, CarryMarker);
    var bob := User("bob", None);
    var userPages := [Page([bob], false, None)];
    var keyPages := [Page([k1], true, Some("m")), Page([k2], false, None)];
    assert Chain(KeysOf(store, "bob"), None, keyPages) by {
      assert keyPages[1..] == [Page([k2], false, None)];
    }
    assert Entries(keyPages) == [k1, k2] by {
      assert keyPages[1..][1..] == [];
      assert Entries(keyPages[1..]) == [k2] + Entries(keyPages[1..][1..]);
      assert Entries(keyPages) == [k1] + Entries(keyPages[1..]);
    }
    assert Entries(userPages) == [bob] by {
      assert userPages[1..] == [];
    }
    var keyChains := map["bob" := keyPages];
    assert Chain(store.users, None, userPages);
    UserLoopReadsChains(store, policy, None, userPages, keyChains, fuel, fuel);
    assert Expected([bob], keyChains, policy) == StaleKeys([k1, k2], now) + [] + [];
    assert StaleKeys([k1, k2], now) + [] + [] == StaleKeys([k1, k2], now);
  }

  /** The corrected lambda posts both keys' lines, first page first. */
  lemma TwoKeyPagesCorrected(k1: AccessKey, k2: AccessKey, now: int, prefix: string, post: PostResult, fuel: nat)
    requires fuel >= 2
    requires IsStaleKey(k1, now) && IsStaleKey(k2, now)
    ensures CorrectedHandler(TwoKeyPageStore(k1, k2), now, prefix, post, fuel).posted
            == Some(SlackText(prefix, ReportText([KeyFinding(k1, now), KeyFinding(k2, now)])))
  {
    TwoKeyPagesScan(k1, k2, now, fuel);
    assert StaleKeys([k1, k2], now) == [KeyFinding(k1, now), KeyFinding(k2, now)] by {
      assert [k1, k2][1..] == [k2];
      assert [k2][1..] == [];
    }
  }
}
