/** The IAM entities the credential auditors read, the findings they
    derive from them and the text lines that report a finding. */
module Iam {

  import opened Wrappers
  import opened Age
  import Decimal
  import Text

  /** Rotation threshold: an active access key this many days old or older
      is reported. Both auditors use the same value. */
  const KeyMaxAgeDays: int := 90

  const ActiveStatus: string := "Active"

  /** An entry of `listUsers`: `PasswordLastUsed` is absent for a user that
      never signed in with a password. */
  datatype User = User(userName: string, passwordLastUsed: Option<int>)

  /** An entry of `listAccessKeys` (AccessKeyMetadata). `status` is the
      store's text, "Active" or "Inactive". */
  datatype AccessKey = AccessKey(userName: string, accessKeyId: string, status: string, createDate: int)

  /** One reported problem, carrying the values its line prints. */
  datatype Finding =
    | KeyTooOld(userName: string, accessKeyId: string, status: string, age: int)
    | NoLogin(userName: string, age: int)

  /** The key filter: active and at least KeyMaxAgeDays old at `now`. */
  predicate IsStaleKey(k: AccessKey, now: int) {
    AgeInDays(now, k.createDate) >= KeyMaxAgeDays && k.status == ActiveStatus
  }

  function KeyFinding(k: AccessKey, now: int): Finding {
    KeyTooOld(k.userName, k.accessKeyId, k.status, AgeInDays(now, k.createDate))
  }

  /** The findings of one page of keys, in page order. */
  function StaleKeys(keys: seq<AccessKey>, now: int): (r: seq<Finding>)
    ensures |r| <= |keys|
    ensures forall f :: f in r ==> f.KeyTooOld? && f.status == ActiveStatus && f.age >= KeyMaxAgeDays
    ensures forall k :: k in keys && IsStaleKey(k, now) ==> KeyFinding(k, now) in r
    ensures forall f :: f in r ==> exists k :: k in keys && IsStaleKey(k, now) && f == KeyFinding(k, now)
    decreases |keys|
  {
    if keys == [] then []
    else
      var rest := StaleKeys(keys[1..], now);
      if IsStaleKey(keys[0], now) then [KeyFinding(keys[0], now)] + rest else rest
  }

  lemma {:induction false} StaleKeysAppend(a: seq<AccessKey>, b: seq<AccessKey>, now: int)
    ensures StaleKeys(a + b, now) == StaleKeys(a, now) + StaleKeys(b, now)
    decreases |a|
  {
    if a == [] {
      assert a + b == b;
    } else {
      assert (a + b)[0] == a[0];
      assert (a + b)[1..] == a[1..] + b;
      StaleKeysAppend(a[1..], b, now);
    }
  }

  /** The login check: a user with a recorded last password use at least
      `threshold` days ago yields one NoLogin finding; any other user none. */
  function LoginFinding(u: User, now: int, threshold: int): (r: seq<Finding>)
    ensures |r| <= 1
    ensures |r| == 1 <==> u.passwordLastUsed.Some? && AgeInDays(now, u.passwordLastUsed.value) >= threshold
    ensures |r| == 1 ==> r[0].NoLogin? && r[0].userName == u.userName && r[0].age >= threshold
    ensures |r| == 1 ==> r == [NoLogin(u.userName, AgeInDays(now, u.passwordLastUsed.value))]
  {
    match u.passwordLastUsed
    case None => []
    case Some(t) =>
      var age := AgeInDays(now, t);
      if age >= threshold then [NoLogin(u.userName, age)] else []
  }

  /** The text of a finding, without a line terminator. */
  function Line(f: Finding): (s: string)
    ensures |s| > 0
  {
    match f
    case KeyTooOld(user, id, status, age) =>
      user + " AccessKey too old " + id + " " + status + " " + Decimal.IntToDecimal(age) + "d"
    case NoLogin(user, age) =>
      user + " no login in " + Decimal.IntToDecimal(age) + " days."
  }

  /** The key line template, written out for one finding. */
  lemma KeyLineFormat()
    ensures Line(KeyTooOld("alice", "AKIA1", "Active", 91)) == "alice AccessKey too old AKIA1 Active 91d"
  {
    KeyLinePieces();
    KeyLineLiteral();
  }

  /** The key line's pieces, joined. */
  lemma KeyLineLiteral()
    ensures "alice" + " AccessKey too old " + "AKIA1" + " " + "Active" + " " + "91" + "d"
            == "alice AccessKey too old AKIA1 Active 91d"
  {
  }

  /** The key line's pieces, with the age printed as "91". */
  lemma KeyLinePieces()
    ensures Line(KeyTooOld("alice", "AKIA1", "Active", 91))
            == "alice" + " AccessKey too old " + "AKIA1" + " " + "Active" + " " + "91" + "d"
  {
    assert Decimal.NatToDecimal(9) == "9";
    assert Decimal.IntToDecimal(91) == "91";
  }

  /** The login line template, written out for one finding. */
  lemma LoginLineFormat()
    ensures Line(NoLogin("bob", 80)) == "bob no login in 80 days."
  {
    var age := Decimal.IntToDecimal(80);
    assert Decimal.NatToDecimal(8) == "8";
    assert age == "80";
  }

  /** The report the lambda accumulates: each finding's line followed by a
      newline, in finding order. */
  function ReportText(fs: seq<Finding>): (s: string)
    ensures |s| == 0 <==> fs == []
    decreases |fs|
  {
    if fs == [] then "" else Line(fs[0]) + "\n" + ReportText(fs[1..])
  }

  lemma {:induction false} ReportTextAppend(a: seq<Finding>, b: seq<Finding>)
    ensures ReportText(a + b) == ReportText(a) + ReportText(b)
    decreases |a|
  {
    if a == [] {
      assert a + b == b;
    } else {
      assert (a + b)[0] == a[0];
      assert (a + b)[1..] == a[1..] + b;
      ReportTextAppend(a[1..], b);
    }
  }

  /** The names a finding prints contain neither a space nor a newline,
      as IAM user names, key ids and statuses never do. */
  predicate PlainNames(f: Finding) {
    match f
    case KeyTooOld(user, id, status, _) =>
      ' ' !in user && '\n' !in user && ' ' !in id && '\n' !in id && ' ' !in status && '\n' !in status
    case NoLogin(user, _) => ' ' !in user && '\n' !in user
  }

  /** The lines of the findings, in order. */
  function Lines(fs: seq<Finding>): (r: seq<string>)
    ensures |r| == |fs|
    ensures forall i :: 0 <= i < |fs| ==> r[i] == Line(fs[i])
    decreases |fs|
  {
    if fs == [] then [] else [Line(fs[0])] + Lines(fs[1..])
  }

  /** The words of a finding's line. */
  function Words(f: Finding): seq<string> {
    match f
    case KeyTooOld(user, id, status, age) =>
      [user, "AccessKey", "too", "old", id, status, Decimal.IntToDecimal(age) + "d"]
    case NoLogin(user, age) =>
      [user, "no", "login", "in", Decimal.IntToDecimal(age), "days."]
  }

  lemma LoginLineIsWords(user: string, d: string)
    ensures Text.Join([user, "no", "login", "in", d, "days."], ' ') == user + " no login in " + d + " days."
  {
    var w := [user, "no", "login", "in", d, "days."];
    assert Text.Join(w[4..], ' ') == d + " " + "days." by {
      assert w[4..][1..] == w[5..];
    }
    assert Text.Join(w[3..], ' ') == "in" + " " + (d + " " + "days.") by {
      assert w[3..][1..] == w[4..];
    }
    assert Text.Join(w[2..], ' ') == "login" + " " + ("in" + " " + (d + " " + "days.")) by {
      assert w[2..][1..] == w[3..];
    }
    assert Text.Join(w[1..], ' ') == "no" + " " + ("login" + " " + ("in" + " " + (d + " " + "days."))) by {
      assert w[1..][1..] == w[2..];
    }
    assert "no" + " " + ("login" + " " + ("in" + " " + (d + " " + "days."))) == "no login in " + d + " days.";
  }

  lemma KeyLineTail(id: string, status: string, d: string)
    ensures Text.Join([id, status, d + "d"], ' ') == id + " " + (status + " " + (d + "d"))
  {
    var w := [id, status, d + "d"];
    assert Text.Join(w[1..], ' ') == status + " " + (d + "d") by {
      assert w[1..][1..] == w[2..];
      assert Text.Join(w[2..], ' ') == d + "d";
    }
  }

  lemma KeyLineIsWords(user: string, id: string, status: string, d: string)
    ensures Text.Join([user, "AccessKey", "too", "old", id, status, d + "d"], ' ')
            == user + " AccessKey too old " + id + " " + status + " " + d + "d"
  {
    var w := [user, "AccessKey", "too", "old", id, status, d + "d"];
    var tail := id + " " + (status + " " + (d + "d"));
    KeyLineTail(id, status, d);
    assert w[4..] == [id, status, d + "d"];
    assert Text.Join(w[3..], ' ') == "old" + " " + tail by {
      assert w[3..][1..] == w[4..];
    }
    assert Text.Join(w[2..], ' ') == "too" + " " + ("old" + " " + tail) by {
      assert w[2..][1..] == w[3..];
    }
    assert Text.Join(w[1..], ' ') == "AccessKey" + " " + ("too" + " " + ("old" + " " + tail)) by {
      assert w[1..][1..] == w[2..];
    }
  }

  lemma LineIsWords(f: Finding)
    ensures Line(f) == Text.Join(Words(f), ' ')
  {
    match f
    case KeyTooOld(user, id, status, age) =>
      KeyLineIsWords(user, id, status, Decimal.IntToDecimal(age));
    case NoLogin(user, age) =>
      LoginLineIsWords(user, Decimal.IntToDecimal(age));
  }

  /** Reads one line back into a finding; a line of any other shape is
      None. */
  function ParseLine(s: string): Option<Finding> {
    var w := Text.Split(s, ' ', []);
    if |w| == 7 && w[1] == "AccessKey" && w[2] == "too" && w[3] == "old"
       && |w[6]| >= 1 && w[6][|w[6]| - 1] == 'd'
       && Decimal.ParseDecimal(w[6][..|w[6]| - 1]).Some?
    then
      Some(KeyTooOld(w[0], w[4], w[5], Decimal.ParseDecimal(w[6][..|w[6]| - 1]).value))
    else if |w| == 6 && w[1] == "no" && w[2] == "login" && w[3] == "in" && w[5] == "days."
       && Decimal.ParseDecimal(w[4]).Some?
    then
      Some(NoLogin(w[0], Decimal.ParseDecimal(w[4]).value))
    else
      None
  }

  lemma DecimalIsPlain(n: int)
    ensures ' ' !in Decimal.IntToDecimal(n) && '\n' !in Decimal.IntToDecimal(n)
  {
    var s := Decimal.IntToDecimal(n);
    if n >= 0 {
      assert Decimal.AllDigits(s);
    } else {
      assert Decimal.AllDigits(s[1..]);
      assert s == [s[0]] + s[1..];
    }
  }

  /** A finding's line determines the finding: parsing it gives the
      finding back. */
  lemma LineRoundTrip(f: Finding)
    requires PlainNames(f)
    ensures ParseLine(Line(f)) == Some(f)
  {
    var w := Words(f);
    var d := Decimal.IntToDecimal(f.age);
    DecimalIsPlain(f.age);
    Decimal.IntDecimalRoundTrip(f.age);
    LineIsWords(f);
    assert forall i :: 0 <= i < |w| ==> ' ' !in w[i];
    Text.SplitJoin(w, ' ');
    if f.KeyTooOld? {
      assert (d + "d")[..|d + "d"| - 1] == d;
    }
  }

  lemma LineIsSingle(f: Finding)
    requires PlainNames(f)
    ensures '\n' !in Line(f)
  {
    DecimalIsPlain(f.age);
  }

  /** The report split at its newlines: one piece per finding's line, and
      the empty piece after the last terminator. */
  lemma {:induction false} ReportTextLines(fs: seq<Finding>)
    requires forall f :: f in fs ==> PlainNames(f)
    ensures Text.Split(ReportText(fs), '\n', []) == Lines(fs) + [""]
    decreases |fs|
  {
    if fs == [] {
      assert Lines(fs) + [""] == [""];
    } else {
      var l := Line(fs[0]);
      var rest := ReportText(fs[1..]);
      assert ReportText(fs) == l + ['\n'] + rest;
      LineIsSingle(fs[0]);
      Text.SplitStep(l, rest, '\n', []);
      assert [] + l == l;
      ReportTextLines(fs[1..]);
    }
  }

  /** Reads lines back into findings; None if any line does not parse. */
  function ParseLines(ls: seq<string>): (r: Option<seq<Finding>>)
    ensures r.Some? ==> |r.value| == |ls|
    decreases |ls|
  {
    if ls == [] then Some([])
    else
      var head := ParseLine(ls[0]);
      var tail := ParseLines(ls[1..]);
      if head.Some? && tail.Some? then Some([head.value] + tail.value) else None
  }

  /** Reads a newline-terminated report back into its findings. */
  function ParseReport(s: string): Option<seq<Finding>> {
    var pieces := Text.Split(s, '\n', []);
    if pieces[|pieces| - 1] == "" then ParseLines(pieces[..|pieces| - 1]) else None
  }

  lemma {:induction false} ParseLinesEach(ls: seq<string>, fs: seq<Finding>)
    requires |ls| == |fs|
    requires forall i :: 0 <= i < |ls| ==> ParseLine(ls[i]) == Some(fs[i])
    ensures ParseLines(ls) == Some(fs)
    decreases |ls|
  {
    if ls != [] {
      ParseLinesEach(ls[1..], fs[1..]);
      assert fs == [fs[0]] + fs[1..];
    }
  }

  lemma ParseLinesRoundTrip(fs: seq<Finding>)
    requires forall f :: f in fs ==> PlainNames(f)
    ensures ParseLines(Lines(fs)) == Some(fs)
  {
    var ls := Lines(fs);
    forall i | 0 <= i < |ls|
      ensures ParseLine(ls[i]) == Some(fs[i])
    {
      LineRoundTrip(fs[i]);
    }
    ParseLinesEach(ls, fs);
  }

  /** The report text determines the findings and their order: reading it
      back gives exactly the findings it was built from. */
  lemma ReportRoundTrip(fs: seq<Finding>)
    requires forall f :: f in fs ==> PlainNames(f)
    ensures ParseReport(ReportText(fs)) == Some(fs)
  {
    ReportTextLines(fs);
    var pieces := Lines(fs) + [""];
    assert pieces[..|pieces| - 1] == Lines(fs);
    ParseLinesRoundTrip(fs);
  }
}
