/** The audit pass shared by the scheduled lambda and the stand-alone
    script: page through the users, and for each user page through its
    access keys and then check its last password use.

    A Scan records the findings produced before the pass stopped and why
    it stopped. Fuel bounds the number of requests each paging loop may
    make; running out of it stands for a loop that has not finished. */
module Audit {

  import opened Wrappers
  import opened Paging
  import opened Iam

  /** How the access-key loop builds its next request. The source rebuilds
      the request object at the top of every iteration, so the marker it
      stores at the bottom is lost (DiscardMarker); CarryMarker is the
      loop as evidently intended. */
  datatype KeyPaging = DiscardMarker | CarryMarker

  /** The settings of one pass: the observation instant, the login
      inactivity threshold in days, and the key paging behaviour. */
  datatype Policy = Policy(now: int, loginThreshold: int, keyPaging: KeyPaging)

  /** The identity store: the user listing, and one access-key listing per
      user name. */
  datatype Store = Store(users: Listing<User>, keys: map<string, Listing<AccessKey>>)

  datatype Stop = Complete | ListFailed | OutOfFuel

  datatype Scan = Scan(findings: seq<Finding>, stop: Stop)

  /** The key listing of a user; a user the store knows no keys for has an
      empty listing, whose every request is rejected. */
  function KeysOf(store: Store, userName: string): Listing<AccessKey> {
    if userName in store.keys then store.keys[userName] else map[]
  }

  /** A finding the policy allows to be reported. */
  predicate Reportable(f: Finding, policy: Policy) {
    match f
    case KeyTooOld(_, _, status, age) => status == ActiveStatus && age >= KeyMaxAgeDays
    case NoLogin(_, age) => age >= policy.loginThreshold
  }

  /** `processAccessKeysForUser`: request a page, report its stale keys,
      stop on an untruncated page, otherwise request again. */
  function KeyLoop(keys: Listing<AccessKey>, req: Option<string>, paging: KeyPaging, now: int, fuel: nat): (r: Scan)
    ensures forall f :: f in r.findings ==> f.KeyTooOld? && f.status == ActiveStatus && f.age >= KeyMaxAgeDays
    decreases fuel
  {
    if fuel == 0 then Scan([], OutOfFuel)
    else if req !in keys then Scan([], ListFailed)
    else
      var page := keys[req];
      var found := StaleKeys(page.entries, now);
      if !page.isTruncated then Scan(found, Complete)
      else
        var next := if paging == CarryMarker then page.marker else None;
        var rest := KeyLoop(keys, next, paging, now, fuel - 1);
        Scan(found + rest.findings, rest.stop)
  }

  /** The body of the user loop for one page of users, in page order: the
      user's key findings, then its login finding. The first key scan that
      does not complete ends the pass. */
  function UsersScan(store: Store, policy: Policy, users: seq<User>, keyFuel: nat): (r: Scan)
    ensures forall f :: f in r.findings ==> Reportable(f, policy)
    decreases |users|
  {
    if users == [] then Scan([], Complete)
    else
      var u := users[0];
      var keys := KeyLoop(KeysOf(store, u.userName), None, policy.keyPaging, policy.now, keyFuel);
      if keys.stop != Complete then Scan(keys.findings, keys.stop)
      else
        var own := keys.findings + LoginFinding(u, policy.now, policy.loginThreshold);
        var rest := UsersScan(store, policy, users[1..], keyFuel);
        Scan(own + rest.findings, rest.stop)
  }

  /** The user loop: the request object outlives the loop, so each page's
      marker is carried into the next request. */
  function UserLoop(store: Store, policy: Policy, req: Option<string>, fuel: nat, keyFuel: nat): (r: Scan)
    ensures forall f :: f in r.findings ==> Reportable(f, policy)
    decreases fuel
  {
    if fuel == 0 then Scan([], OutOfFuel)
    else if req !in store.users then Scan([], ListFailed)
    else
      var page := store.users[req];
      var here := UsersScan(store, policy, page.entries, keyFuel);
      if here.stop != Complete || !page.isTruncated then here
      else
        var rest := UserLoop(store, policy, page.marker, fuel - 1, keyFuel);
        Scan(here.findings + rest.findings, rest.stop)
  }

  /** A full pass from the first request, `fuel` requests per loop. */
  function AuditPass(store: Store, policy: Policy, fuel: nat): Scan {
    UserLoop(store, policy, None, fuel, fuel)
  }

  // ---------------------------------------------------------------------
  // Reference definition of the report: the findings of every listed user
  // in listing order, each user's key findings before its login finding.

  /** The key chain recorded for every user of `users`, short enough for
      the fuel; the loop as written reads a chain only if it is one page
      long. */
  predicate HasKeyChains(store: Store, users: seq<User>, keyChains: map<string, seq<Page<AccessKey>>>,
                         keyFuel: nat, paging: KeyPaging) {
    forall u :: u in users ==>
      && u.userName in keyChains
      && Chain(KeysOf(store, u.userName), None, keyChains[u.userName])
      && |keyChains[u.userName]| <= keyFuel
      && (paging == DiscardMarker ==> |keyChains[u.userName]| == 1)
  }

  /** The key pages recorded for a user; none if no chain is recorded. */
  function ChainOf(keyChains: map<string, seq<Page<AccessKey>>>, userName: string): seq<Page<AccessKey>> {
    if userName in keyChains then keyChains[userName] else []
  }

  function Expected(users: seq<User>, keyChains: map<string, seq<Page<AccessKey>>>, policy: Policy): seq<Finding>
    decreases |users|
  {
    if users == [] then []
    else
      StaleKeys(Entries(ChainOf(keyChains, users[0].userName)), policy.now)
        + LoginFinding(users[0], policy.now, policy.loginThreshold)
        + Expected(users[1..], keyChains, policy)
  }

  lemma {:induction false} ExpectedAppend(a: seq<User>, b: seq<User>, keyChains: map<string, seq<Page<AccessKey>>>, policy: Policy)
    ensures Expected(a + b, keyChains, policy) == Expected(a, keyChains, policy) + Expected(b, keyChains, policy)
    decreases |a|
  {
    if a == [] {
      assert a + b == b;
    } else {
      assert (a + b)[0] == a[0];
      assert (a + b)[1..] == a[1..] + b;
      ExpectedAppend(a[1..], b, keyChains, policy);
    }
  }

  // ---------------------------------------------------------------------
  // Key paging.

  /** With the marker carried, a listing whose pages form a chain is read
      completely, each page once, in order. */
  lemma {:induction false} KeyLoopReadsChain(keys: Listing<AccessKey>, req: Option<string>, pages: seq<Page<AccessKey>>, now: int, fuel: nat)
    requires Chain(keys, req, pages)
    requires |pages| <= fuel
    ensures KeyLoop(keys, req, CarryMarker, now, fuel) == Scan(StaleKeys(Entries(pages), now), Complete)
    decreases |pages|
  {
    if |pages| == 1 {
      assert Entries(pages) == pages[0].entries + Entries(pages[1..]);
      assert pages[0].entries + [] == pages[0].entries;
    } else {
      KeyLoopReadsChain(keys, pages[0].marker, pages[1..], now, fuel - 1);
      StaleKeysAppend(pages[0].entries, Entries(pages[1..]), now);
    }
  }

  /** Conversely, a key scan that completes read a chain of at most `fuel`
      pages. */
  lemma {:induction false} KeyLoopCompleteHasChain(keys: Listing<AccessKey>, req: Option<string>, now: int, fuel: nat)
    requires KeyLoop(keys, req, CarryMarker, now, fuel).stop == Complete
    ensures exists pages :: Chain(keys, req, pages) && |pages| <= fuel
    decreases fuel
  {
    var page := keys[req];
    if !page.isTruncated {
      assert Chain(keys, req, [page]);
    } else {
      KeyLoopCompleteHasChain(keys, page.marker, now, fuel - 1);
      var rest :| Chain(keys, page.marker, rest) && |rest| <= fuel - 1;
      assert ([page] + rest)[1..] == rest;
      assert Chain(keys, req, [page] + rest);
    }
  }

  /** As written, the key loop finishes only when the first page it gets
      is not truncated; a truncated first page is requested again and
      again, whatever the fuel. */
  lemma {:induction false} KeyLoopAsWrittenCompletes(keys: Listing<AccessKey>, now: int, fuel: nat)
    ensures KeyLoop(keys, None, DiscardMarker, now, fuel).stop == Complete
            <==> fuel >= 1 && None in keys && !keys[None].isTruncated
    ensures fuel >= 1 && None in keys && keys[None].isTruncated
            ==> KeyLoop(keys, None, DiscardMarker, now, fuel).stop == OutOfFuel
    decreases fuel
  {
    if fuel >= 1 && None in keys && keys[None].isTruncated {
      KeyLoopAsWrittenCompletes(keys, now, fuel - 1);
    }
  }

  /** As written, a key listing whose chain is a single page is read just
      as the corrected loop reads it. */
  lemma KeyLoopAsWrittenReadsSinglePage(keys: Listing<AccessKey>, pages: seq<Page<AccessKey>>, now: int, fuel: nat)
    requires Chain(keys, None, pages) && |pages| == 1
    requires fuel >= 1
    ensures KeyLoop(keys, None, DiscardMarker, now, fuel) == KeyLoop(keys, None, CarryMarker, now, fuel)
    ensures KeyLoop(keys, None, DiscardMarker, now, fuel) == Scan(StaleKeys(Entries(pages), now), Complete)
  {
    KeyLoopReadsChain(keys, None, pages, now, fuel);
  }

  /** Repeats `s` `n` times. */
  function Repeat<T>(s: seq<T>, n: nat): (r: seq<T>)
    ensures |r| == |s| * n
    decreases n
  {
    if n == 0 then [] else s + Repeat(s, n - 1)
  }

  /** As written, a truncated first key page is fetched once per request,
      and its stale keys are reported again every time. */
  lemma {:induction false} KeyLoopAsWrittenRepeats(keys: Listing<AccessKey>, now: int, fuel: nat)
    requires None in keys && keys[None].isTruncated
    ensures KeyLoop(keys, None, DiscardMarker, now, fuel)
            == Scan(Repeat(StaleKeys(keys[None].entries, now), fuel), OutOfFuel)
    decreases fuel
  {
    if fuel > 0 {
      KeyLoopAsWrittenRepeats(keys, now, fuel - 1);
    }
  }

  // ---------------------------------------------------------------------
  // User paging and the whole pass.

  /** A page of users whose key listings are chains the loop can read
      yields each user's key findings followed by its login finding, users
      in page order. */
  lemma {:induction false} UsersScanReadsChains(store: Store, policy: Policy, users: seq<User>,
                                                keyChains: map<string, seq<Page<AccessKey>>>, keyFuel: nat)
    requires HasKeyChains(store, users, keyChains, keyFuel, policy.keyPaging)
    ensures UsersScan(store, policy, users, keyFuel) == Scan(Expected(users, keyChains, policy), Complete)
    decreases |users|
  {
    if users != [] {
      var u := users[0];
      var chain := ChainOf(keyChains, u.userName);
      if policy.keyPaging == CarryMarker {
        KeyLoopReadsChain(KeysOf(store, u.userName), None, chain, policy.now, keyFuel);
      } else {
        KeyLoopAsWrittenReadsSinglePage(KeysOf(store, u.userName), chain, policy.now, keyFuel);
      }
      assert HasKeyChains(store, users[1..], keyChains, keyFuel, policy.keyPaging) by {
        forall v | v in users[1..] ensures v in users { }
      }
      UsersScanReadsChains(store, policy, users[1..], keyChains, keyFuel);
    }
  }

  /** A pass over a store whose user listing is a chain and whose key
      listings are chains the key loop can read reports exactly the
      reference findings: pages in request order, users in page order, each
      user's key findings before its login finding. With the marker carried
      any key chain qualifies; as written, only single-page ones. */
  lemma {:induction false} UserLoopReadsChains(store: Store, policy: Policy, req: Option<string>, pages: seq<Page<User>>,
                                               keyChains: map<string, seq<Page<AccessKey>>>, fuel: nat, keyFuel: nat)
    requires Chain(store.users, req, pages)
    requires |pages| <= fuel
    requires HasKeyChains(store, Entries(pages), keyChains, keyFuel, policy.keyPaging)
    ensures UserLoop(store, policy, req, fuel, keyFuel) == Scan(Expected(Entries(pages), keyChains, policy), Complete)
    decreases |pages|
  {
    var first := pages[0].entries;
    assert Entries(pages) == first + Entries(pages[1..]);
    assert HasKeyChains(store, first, keyChains, keyFuel, policy.keyPaging);
    UsersScanReadsChains(store, policy, first, keyChains, keyFuel);
    if |pages| == 1 {
      assert Entries(pages) == first;
    } else {
      assert HasKeyChains(store, Entries(pages[1..]), keyChains, keyFuel, policy.keyPaging);
      UserLoopReadsChains(store, policy, pages[0].marker, pages[1..], keyChains, fuel - 1, keyFuel);
      ExpectedAppend(first, Entries(pages[1..]), keyChains, policy);
    }
  }

  /** A page of users completes only if every user's key scan completed. */
  lemma {:induction false} UsersScanCompleteKeys(store: Store, policy: Policy, users: seq<User>, keyFuel: nat)
    requires UsersScan(store, policy, users, keyFuel).stop == Complete
    ensures forall u :: u in users ==>
      KeyLoop(KeysOf(store, u.userName), None, policy.keyPaging, policy.now, keyFuel).stop == Complete
    decreases |users|
  {
    if users != [] {
      UsersScanCompleteKeys(store, policy, users[1..], keyFuel);
      forall u | u in users
        ensures KeyLoop(KeysOf(store, u.userName), None, policy.keyPaging, policy.now, keyFuel).stop == Complete
      {
        if u != users[0] {
          assert u in users[1..];
        }
      }
    }
  }

  /** As written, a pass completes only if every user on the pages it read
      has an untruncated first key page: one user with more keys than a
      page holds keeps the pass from ever finishing. */
  lemma {:induction false} AsWrittenNeedsSinglePageKeys(store: Store, policy: Policy, req: Option<string>,
                                                        pages: seq<Page<User>>, fuel: nat, keyFuel: nat)
    requires policy.keyPaging == DiscardMarker
    requires Chain(store.users, req, pages)
    requires UserLoop(store, policy, req, fuel, keyFuel).stop == Complete
    ensures forall u :: u in Entries(pages) ==>
      None in KeysOf(store, u.userName) && !KeysOf(store, u.userName)[None].isTruncated
    decreases |pages|
  {
    var page := pages[0];
    UsersScanCompleteKeys(store, policy, page.entries, keyFuel);
    forall u | u in page.entries
      ensures None in KeysOf(store, u.userName) && !KeysOf(store, u.userName)[None].isTruncated
    {
      KeyLoopAsWrittenCompletes(KeysOf(store, u.userName), policy.now, keyFuel);
    }
    assert Entries(pages) == page.entries + Entries(pages[1..]);
    if |pages| > 1 {
      AsWrittenNeedsSinglePageKeys(store, policy, page.marker, pages[1..], fuel - 1, keyFuel);
    } else {
      assert Entries(pages) == page.entries;
    }
  }

  /** A completed pass also read its user listing as a chain. */
  lemma {:induction false} UserLoopCompleteHasChain(store: Store, policy: Policy, req: Option<string>, fuel: nat, keyFuel: nat)
    requires UserLoop(store, policy, req, fuel, keyFuel).stop == Complete
    ensures exists pages :: Chain(store.users, req, pages) && |pages| <= fuel
    decreases fuel
  {
    var page := store.users[req];
    if !page.isTruncated {
      assert Chain(store.users, req, [page]);
    } else {
      UserLoopCompleteHasChain(store, policy, page.marker, fuel - 1, keyFuel);
      var rest :| Chain(store.users, page.marker, rest) && |rest| <= fuel - 1;
      assert ([page] + rest)[1..] == rest;
      assert Chain(store.users, req, [page] + rest);
    }
  }

  // ---------------------------------------------------------------------
  // Two passes that differ only in the login threshold.

  predicate SameButThreshold(strict: Policy, lenient: Policy) {
    && strict.now == lenient.now
    && strict.keyPaging == lenient.keyPaging
    && lenient.loginThreshold <= strict.loginThreshold
  }

  lemma {:induction false} UsersScanThresholdMonotone(store: Store, strict: Policy, lenient: Policy, users: seq<User>, keyFuel: nat)
    requires SameButThreshold(strict, lenient)
    ensures UsersScan(store, strict, users, keyFuel).stop == UsersScan(store, lenient, users, keyFuel).stop
    ensures forall f :: f in UsersScan(store, strict, users, keyFuel).findings ==>
                        f in UsersScan(store, lenient, users, keyFuel).findings
    decreases |users|
  {
    if users != [] {
      UsersScanThresholdMonotone(store, strict, lenient, users[1..], keyFuel);
    }
  }

  /** A pass with a lower login threshold stops in the same way and reports
      every finding the stricter pass reports. */
  lemma {:induction false} UserLoopThresholdMonotone(store: Store, strict: Policy, lenient: Policy, req: Option<string>, fuel: nat, keyFuel: nat)
    requires SameButThreshold(strict, lenient)
    ensures UserLoop(store, strict, req, fuel, keyFuel).stop == UserLoop(store, lenient, req, fuel, keyFuel).stop
    ensures forall f :: f in UserLoop(store, strict, req, fuel, keyFuel).findings ==>
                        f in UserLoop(store, lenient, req, fuel, keyFuel).findings
    decreases fuel
  {
    if fuel > 0 && req in store.users {
      var page := store.users[req];
      UsersScanThresholdMonotone(store, strict, lenient, page.entries, keyFuel);
      if page.isTruncated {
        UserLoopThresholdMonotone(store, strict, lenient, page.marker, fuel - 1, keyFuel);
      }
    }
  }
}
