/** The check / nightly / dismiss / 304 state machine of `AppUpdateService`. */
module AppUpdate {
  import opened Wrappers
  import opened Version

  /** Which of two tags is newer; in the application `NewerThan`, which `IsNewerThan` computes. */
  type Order = (QString, QString) -> bool

  datatype Status = Idle | Checking | UpToDate | UpdateAvailable | Error | Disabled

  datatype Release = Release(tag: QString, notes: QString, url: QString)

  /** `latest` has an empty tag until a release is recorded; `dismissed` lives in the
      settings; the two counters are requests sent and not yet answered. */
  datatype State = State(
    status: Status,
    latest: Release,
    etag: QString,
    includeNightly: bool,
    dismissed: QString,
    current: QString,
    latestInFlight: nat,
    nightlyInFlight: nat)

  /** What `/releases/latest` answers; a body that is no JSON object has no release. */
  datatype LatestReply = NotModified | Failed | Body(etag: QString, release: Option<Release>)

  /** What `/releases/tags/nightly` answers. */
  datatype NightlyReply = NightlyFailed | NightlyBody(release: Option<Release>)

  /** The status `applyRelease` gives a tag. */
  function Verdict(s: State, tag: QString, newer: Order): Status {
    if newer(tag, s.current) then (if tag == s.dismissed then Idle else UpdateAvailable) else UpToDate
  }

  function ApplyRelease(s: State, r: Release, newer: Order): State {
    s.(latest := r, status := Verdict(s, r.tag, newer))
  }

  function PerformCheck(s: State): State {
    if s.status == Disabled then s else s.(status := Checking, latestInFlight := s.latestInFlight + 1)
  }

  function CheckNow(s: State): State {
    if s.status == Disabled || s.status == Checking then s else PerformCheck(s)
  }

  function OnNotModified(s: State): State {
    if s.status != Checking then s
    else if s.latest.tag == [] then s.(status := UpToDate)
    else s.(status := if s.latest.tag == s.dismissed then Idle else UpdateAvailable)
  }

  function OnLatest(s: State, reply: LatestReply, newer: Order): State {
    match reply
    case NotModified => OnNotModified(s)
    case Failed => s.(status := Error)
    case Body(etag, release) =>
      var s1 := if etag != [] then s.(etag := etag) else s;
      match release
      case None => s1.(status := Error)
      case Some(r) =>
        if r.tag == [] then s1.(status := Error)
        else if s1.includeNightly then ApplyRelease(s1, r, newer).(nightlyInFlight := s1.nightlyInFlight + 1)
        else ApplyRelease(s1, r, newer)
  }

  function OnNightly(s: State, reply: NightlyReply, newer: Order): State {
    match reply
    case NightlyFailed => s
    case NightlyBody(release) =>
      match release
      case None => s
      case Some(r) => if r.tag != [] && newer(r.tag, s.latest.tag) then ApplyRelease(s, r, newer) else s
  }

  function Dismiss(s: State): State {
    s.(dismissed := if s.latest.tag != [] then s.latest.tag else s.dismissed, status := Idle)
  }

  // ---- Steps -----------------------------------------------------------------------------

  datatype Step =
    | CheckNowStep
    | PollStep
    | LatestStep(latestReply: LatestReply)
    | NightlyStep(nightlyReply: NightlyReply)
    | DismissStep
    | NightlyOption(on: bool)

  /** A reply answers a request; each request is answered once. */
  predicate Enabled(s: State, a: Step) {
    (a.LatestStep? ==> s.latestInFlight > 0) && (a.NightlyStep? ==> s.nightlyInFlight > 0)
  }

  function Apply(s: State, a: Step, newer: Order): State
    requires Enabled(s, a)
  {
    match a
    case CheckNowStep => CheckNow(s)
    case PollStep => PerformCheck(s)
    case LatestStep(reply) => OnLatest(s.(latestInFlight := s.latestInFlight - 1), reply, newer)
    case NightlyStep(reply) => OnNightly(s.(nightlyInFlight := s.nightlyInFlight - 1), reply, newer)
    case DismissStep => Dismiss(s)
    case NightlyOption(on) => s.(includeNightly := on)
  }

  predicate ValidRun(s: State, steps: seq<Step>, newer: Order)
    decreases steps
  {
    steps == [] || (Enabled(s, steps[0]) && ValidRun(Apply(s, steps[0], newer), steps[1..], newer))
  }

  function Run(s: State, steps: seq<Step>, newer: Order): State
    requires ValidRun(s, steps, newer)
    decreases steps
  {
    if steps == [] then s else Run(Apply(s, steps[0], newer), steps[1..], newer)
  }

  // ---- The class ---------------------------------------------------------------------------

  class AppUpdateService {
    var m_status: Status
    var m_latest: Release
    var m_etag: QString
    var m_includeNightly: bool
    var dismissedTag: QString
    const current: QString
    const newer: Order
    ghost var latestInFlight: nat
    ghost var nightlyInFlight: nat

    ghost function Abs(): State
      reads this
    {
      State(m_status, m_latest, m_etag, m_includeNightly, dismissedTag, current, latestInFlight, nightlyInFlight)
    }

    /** `flatpak` is the self-disable switch. */
    constructor (current: QString, dismissedTag: QString, includeNightly: bool, flatpak: bool, newer: Order)
      ensures this.newer == newer
      ensures Abs() == State(if flatpak then Disabled else Idle, Release([], [], []), [],
                             includeNightly, dismissedTag, current, 0, 0)
    {
      this.current := current;
      this.newer := newer;
      this.dismissedTag := dismissedTag;
      m_includeNightly := includeNightly;
      m_status := if flatpak then Disabled else Idle;
      m_latest, m_etag := Release([], [], []), [];
      latestInFlight, nightlyInFlight := 0, 0;
    }

    method RunPerformCheck() returns (requested: bool)
      modifies this
      ensures Abs() == PerformCheck(old(Abs())) && requested == (old(m_status) != Disabled)
    {
      if m_status == Disabled {
        return false;
      }
      m_status := Checking;
      latestInFlight := latestInFlight + 1;
      return true;
    }

    method RunCheckNow() returns (requested: bool)
      modifies this
      ensures Abs() == CheckNow(old(Abs()))
      ensures requested == (old(m_status) != Disabled && old(m_status) != Checking)
    {
      if m_status == Disabled {
        return false;
      }
      if m_status == Checking {
        return false;
      }
      requested := RunPerformCheck();
    }

    method DismissCurrentUpdate()
      modifies this
      ensures Abs() == Dismiss(old(Abs()))
    {
      if m_latest.tag != [] {
        dismissedTag := m_latest.tag;
      }
      m_status := Idle;
    }

    method RunApplyRelease(tag: QString, notes: QString, url: QString)
      modifies this
      ensures Abs() == ApplyRelease(old(Abs()), Release(tag, notes, url), newer)
    {
      if tag != m_latest.tag {
        m_latest := m_latest.(tag := tag);
      }
      if notes != m_latest.notes {
        m_latest := m_latest.(notes := notes);
      }
      if url != m_latest.url {
        m_latest := m_latest.(url := url);
      }
      if newer(tag, current) {
        if tag == dismissedTag {
          m_status := Idle;
        } else {
          m_status := UpdateAvailable;
        }
      } else {
        m_status := UpToDate;
      }
    }

    /** `onLatestReplyFinished`. */
    method OnLatestReply(reply: LatestReply)
      requires latestInFlight > 0
      modifies this
      ensures Abs() == Apply(old(Abs()), LatestStep(reply), newer)
    {
      latestInFlight := latestInFlight - 1;
      if reply.NotModified? {
        if m_status == Checking {
          if m_latest.tag == [] {
            m_status := UpToDate;
          } else {
            m_status := if m_latest.tag == dismissedTag then Idle else UpdateAvailable;
          }
        }
        return;
      }
      if reply.Failed? {
        m_status := Error;
        return;
      }
      if reply.etag != [] {
        m_etag := reply.etag;
      }
      if reply.release.None? || reply.release.value.tag == [] {
        m_status := Error;
        return;
      }
      var r := reply.release.value;
      RunApplyRelease(r.tag, r.notes, r.url);
      if m_includeNightly {
        nightlyInFlight := nightlyInFlight + 1;
      }
    }

    /** `onNightlyReplyFinished`. */
    method OnNightlyReply(reply: NightlyReply)
      requires nightlyInFlight > 0
      modifies this
      ensures Abs() == Apply(old(Abs()), NightlyStep(reply), newer)
    {
      nightlyInFlight := nightlyInFlight - 1;
      if reply.NightlyFailed? || reply.release.None? || reply.release.value.tag == [] {
        return;
      }
      var r := reply.release.value;
      if newer(r.tag, m_latest.tag) {
        RunApplyRelease(r.tag, r.notes, r.url);
      }
    }
  }

  /** What the results below need of the version order; `NewerThan` has it. */
  ghost predicate Asymmetric(newer: Order) {
    forall a, b :: newer(a, b) ==> !newer(b, a)
  }

  lemma NewerThanIsAsymmetric()
    ensures Asymmetric(NewerThan)
  {
    forall a, b
      ensures NewerThan(a, b) ==> !NewerThan(b, a)
    {
      NewerThanIsStrictWeakOrder(a, b, b);
    }
  }

  // ---- One check ------------------------------------------------------------------------------

  lemma RunOfOne(s: State, a: Step, newer: Order)
    requires Enabled(s, a)
    ensures ValidRun(s, [a], newer) && Run(s, [a], newer) == Apply(s, a, newer)
  {
    assert [a][1..] == [];
    assert Run(Apply(s, a, newer), [], newer) == Apply(s, a, newer);
  }

  lemma RunOfTwo(s: State, a: Step, b: Step, newer: Order)
    requires Enabled(s, a) && Enabled(Apply(s, a, newer), b)
    ensures ValidRun(s, [a, b], newer) && Run(s, [a, b], newer) == Apply(Apply(s, a, newer), b, newer)
  {
    assert [a, b][1..] == [b];
    RunOfOne(Apply(s, a, newer), b, newer);
  }

  lemma RunOfThree(s: State, a: Step, b: Step, c: Step, newer: Order)
    requires Enabled(s, a) && Enabled(Apply(s, a, newer), b) && Enabled(Apply(Apply(s, a, newer), b, newer), c)
    ensures ValidRun(s, [a, b, c], newer)
    ensures Run(s, [a, b, c], newer) == Apply(Apply(Apply(s, a, newer), b, newer), c, newer)
  {
    assert [a, b, c][1..] == [b, c];
    RunOfTwo(Apply(s, a, newer), b, c, newer);
  }

  /** The releases a check with nightly on received. */
  function Received(stable: Release, reply: NightlyReply): set<Release> {
    {stable} + (match reply
                case NightlyBody(Some(r)) => (if r.tag == [] then {} else {r})
                case _ => {})
  }

  /** Main result: after one uninterrupted check with nightly on, the recorded release
      is one of those received, no received release is newer, and a tie keeps the stable
      one. The status is up to date if it is no newer than the running version, and otherwise
      an available update, unless it was dismissed. */
  lemma CheckRecordsTheNewest(s: State, etag: QString, stable: Release, reply: NightlyReply, newer: Order)
    requires Asymmetric(newer)
    requires s.includeNightly && s.status != Disabled && s.status != Checking
    requires s.latestInFlight == s.nightlyInFlight == 0 && stable.tag != []
    ensures var steps := [CheckNowStep, LatestStep(Body(etag, Some(stable))), NightlyStep(reply)];
            && ValidRun(s, steps, newer)
            && var end := Run(s, steps, newer);
               && end.latest in Received(stable, reply)
               && (forall r | r in Received(stable, reply) :: !newer(r.tag, end.latest.tag))
               && (end.latest == stable || newer(end.latest.tag, stable.tag))
               && (end.status == UpToDate <==> !newer(end.latest.tag, s.current))
               && (end.status == Idle <==> newer(end.latest.tag, s.current) && end.latest.tag == s.dismissed)
               && (end.status == UpdateAvailable <==> newer(end.latest.tag, s.current) && end.latest.tag != s.dismissed)
               && end.latestInFlight == end.nightlyInFlight == 0
  {
    var a, b, c := CheckNowStep, LatestStep(Body(etag, Some(stable))), NightlyStep(reply);
    RunOfThree(s, a, b, c, newer);
    AfterStableReply(s, etag, stable, newer);
    NightlyDecides(Apply(Apply(s, a, newer), b, newer), stable, reply, newer);
  }

  lemma AfterStableReply(s: State, etag: QString, stable: Release, newer: Order)
    requires s.includeNightly && s.status != Disabled && s.status != Checking
    requires s.latestInFlight == s.nightlyInFlight == 0 && stable.tag != []
    ensures var s2 := Apply(Apply(s, CheckNowStep, newer), LatestStep(Body(etag, Some(stable))), newer);
            && s2.latest == stable && s2.status == Verdict(s, stable.tag, newer)
            && s2.latestInFlight == 0 && s2.nightlyInFlight == 1
            && s2.current == s.current && s2.dismissed == s.dismissed
  {
  }

  lemma NightlyDecides(s: State, stable: Release, reply: NightlyReply, newer: Order)
    requires Asymmetric(newer)
    requires s.latest == stable && s.status == Verdict(s, stable.tag, newer) && s.nightlyInFlight > 0
    ensures var end := Apply(s, NightlyStep(reply), newer);
            && end.latest in Received(stable, reply)
            && (forall r | r in Received(stable, reply) :: !newer(r.tag, end.latest.tag))
            && (end.latest == stable || newer(end.latest.tag, stable.tag))
            && end.status == Verdict(s, end.latest.tag, newer)
            && end.latestInFlight == s.latestInFlight && end.nightlyInFlight == s.nightlyInFlight - 1
  {
    match reply
    case NightlyBody(Some(r)) => assert newer(r.tag, stable.tag) ==> !newer(stable.tag, r.tag);
    case _ =>
  }

  // ---- 304 Not Modified --------------------------------------------------------------------------

  /** The verdict the last recorded release deserves; nothing recorded is up to date. */
  function StandingVerdict(s: State, newer: Order): Status {
    if s.latest.tag == [] then UpToDate else Verdict(s, s.latest.tag, newer)
  }

  /** A 304 is meant to reproduce the standing verdict. It does if and only if nothing
      is recorded or the recorded release is newer than the running version; otherwise
      it reports an update, or none to show, where the release is no update. */
  lemma NotModifiedReproducesVerdictWhen(s: State, newer: Order)
    requires s.status == Checking
    ensures OnNotModified(s).status == StandingVerdict(s, newer)
            <==> s.latest.tag == [] || newer(s.latest.tag, s.current)
  {
  }

  /** With the missing test the branch reproduces the verdict always. */
  function OnNotModifiedIntended(s: State, newer: Order): State {
    if s.status != Checking then s
    else if s.latest.tag == [] || !newer(s.latest.tag, s.current) then s.(status := UpToDate)
    else OnNotModified(s)
  }

  lemma IntendedNotModified(s: State, newer: Order)
    requires s.status == Checking
    ensures OnNotModifiedIntended(s, newer).status == StandingVerdict(s, newer)
    ensures OnNotModifiedIntended(s, newer) == OnNotModified(s)
            <==> OnNotModified(s).status == StandingVerdict(s, newer)
  {
    NotModifiedReproducesVerdictWhen(s, newer);
  }

  /** Over whole checks: once a check has ended with its verdict on a recorded release,
      the next one, if answered 304, ends with the same status if and only if that
      release is newer than the running version. */
  lemma NextNotModifiedKeepsTheStatusWhen(s: State, newer: Order)
    requires s.status == Verdict(s, s.latest.tag, newer) && s.latest.tag != []
    requires s.latestInFlight == s.nightlyInFlight == 0
    ensures var steps := [CheckNowStep, LatestStep(NotModified)];
            && ValidRun(s, steps, newer)
            && (Run(s, steps, newer).status == s.status <==> newer(s.latest.tag, s.current))
            && (Run(s, steps, newer).status != s.status ==>
                  s.status == UpToDate && Run(s, steps, newer).status in {Idle, UpdateAvailable})
  {
    RunOfTwo(s, CheckNowStep, LatestStep(NotModified), newer);
  }

  /** A run that diverges: the newest release is no newer than the running version (it may
      be that version itself, tagged with a `v`), the first check says so, and the second,
      which sends the entity tag it got and is answered 304, announces it as an update. */
  lemma NotModifiedCanAnnounceTheRunningVersion(s: State, etag: QString, r: Release, newer: Order)
    requires s.status == Idle && !s.includeNightly && s.latestInFlight == s.nightlyInFlight == 0
    requires !newer(r.tag, s.current) && r.tag != [] && r.tag != s.dismissed && etag != []
    ensures var first := [CheckNowStep, LatestStep(Body(etag, Some(r)))];
            var second := [CheckNowStep, LatestStep(NotModified)];
            && ValidRun(s, first, newer) && Run(s, first, newer).status == UpToDate
            && ValidRun(Run(s, first, newer), second, newer)
            && var end := Run(Run(s, first, newer), second, newer);
               end.status == UpdateAvailable && !newer(end.latest.tag, end.current)
  {
    var first := [CheckNowStep, LatestStep(Body(etag, Some(r)))];
    var second := [CheckNowStep, LatestStep(NotModified)];
    RunOfTwo(s, first[0], first[1], newer);
    RunOfTwo(Run(s, first, newer), second[0], second[1], newer);
  }

  // ---- Whole runs --------------------------------------------------------------------------------

  /** A banner is shown only for a release newer than the running version and not dismissed. */
  ghost predicate BannerIsHonest(s: State, newer: Order) {
    s.status == UpdateAvailable ==> newer(s.latest.tag, s.current) && s.latest.tag != s.dismissed
  }

  /** No banner shown in the run, in any of its states, is dishonest. */
  ghost predicate HonestThroughout(s: State, steps: seq<Step>, newer: Order)
    requires ValidRun(s, steps, newer)
    decreases steps
  {
    && BannerIsHonest(s, newer)
    && (steps == [] || HonestThroughout(Apply(s, steps[0], newer), steps[1..], newer))
  }

  /** No 304 in the run meets a recorded release that is no update. */
  ghost predicate NoStaleNotModified(s: State, steps: seq<Step>, newer: Order)
    requires ValidRun(s, steps, newer)
    decreases steps
  {
    steps == [] ||
    ((steps[0] == LatestStep(NotModified) && s.status == Checking ==>
        s.latest.tag == [] || s.latest.tag == s.dismissed || newer(s.latest.tag, s.current))
     && NoStaleNotModified(Apply(s, steps[0], newer), steps[1..], newer))
  }

  /** From an honest start, every banner shown in a run is honest if and only if no 304 in
      it meets, while checking, a recorded and undismissed release that is not newer than
      the running version. */
  lemma {:induction false} BannersStayHonest(s: State, steps: seq<Step>, newer: Order)
    requires ValidRun(s, steps, newer) && BannerIsHonest(s, newer)
    ensures HonestThroughout(s, steps, newer) <==> NoStaleNotModified(s, steps, newer)
    decreases steps
  {
    if steps != [] && BannerIsHonest(Apply(s, steps[0], newer), newer) {
      BannersStayHonest(Apply(s, steps[0], newer), steps[1..], newer);
    }
  }

  /** Once a release is dismissed, no banner in a run names it, whatever checks, polls and replies follow, those in
      flight at the dismissal included, until another one is dismissed. */
  lemma {:induction false} DismissedStaysDismissed(s: State, steps: seq<Step>, newer: Order)
    requires s.latest.tag != [] && ValidRun(Dismiss(s), steps, newer) && DismissStep !in steps
    ensures var end := Run(Dismiss(s), steps, newer);
            end.dismissed == s.latest.tag && (end.status == UpdateAvailable ==> end.latest.tag != s.latest.tag)
  {
    NeverNamed(Dismiss(s), steps, newer);
  }

  lemma {:induction false} NeverNamed(s: State, steps: seq<Step>, newer: Order)
    requires ValidRun(s, steps, newer) && DismissStep !in steps
    requires s.status == UpdateAvailable ==> s.latest.tag != s.dismissed
    ensures var end := Run(s, steps, newer);
            end.dismissed == s.dismissed && (end.status == UpdateAvailable ==> end.latest.tag != s.dismissed)
    decreases steps
  {
    if steps != [] {
      assert steps[0] in steps;
      NotNamedNext(s, steps[0], newer);
      NeverNamed(Apply(s, steps[0], newer), steps[1..], newer);
    }
  }

  lemma NotNamedNext(s: State, a: Step, newer: Order)
    requires Enabled(s, a) && !a.DismissStep?
    requires s.status == UpdateAvailable ==> s.latest.tag != s.dismissed
    ensures var next := Apply(s, a, newer);
            next.dismissed == s.dismissed && (next.status == UpdateAvailable ==> next.latest.tag != next.dismissed)
  {
  }

  /** A check never hangs: while the status is checking, a request is in flight, whose
      reply will end it. */
  lemma {:induction false} CheckingWaitsForAReply(s: State, steps: seq<Step>, newer: Order)
    requires ValidRun(s, steps, newer) && (s.status == Checking ==> s.latestInFlight > 0)
    ensures var end := Run(s, steps, newer);
            end.status == Checking ==>
              && end.latestInFlight > 0
              && forall reply :: Apply(end, LatestStep(reply), newer).status != Checking
    decreases steps
  {
    if steps != [] {
      CheckingWaitsForAReply(Apply(s, steps[0], newer), steps[1..], newer);
    }
  }

  /** A disabled service with nothing in flight stays disabled, and sends nothing, over
      a run if and only if the run dismisses no update. */
  lemma {:induction false} DisabledUntilDismissed(s: State, steps: seq<Step>, newer: Order)
    requires ValidRun(s, steps, newer)
    requires s.status == Disabled && s.latestInFlight == s.nightlyInFlight == 0
    ensures Run(s, steps, newer).status == Disabled <==> DismissStep !in steps
    ensures DismissStep !in steps ==> Run(s, steps, newer).latestInFlight == Run(s, steps, newer).nightlyInFlight == 0
    decreases steps
  {
    if steps != [] {
      assert steps == [steps[0]] + steps[1..];
      if steps[0].DismissStep? {
        EnabledStaysEnabled(Apply(s, steps[0], newer), steps[1..], newer);
      } else {
        DisabledUntilDismissed(Apply(s, steps[0], newer), steps[1..], newer);
      }
    }
  }

  lemma {:induction false} EnabledStaysEnabled(s: State, steps: seq<Step>, newer: Order)
    requires ValidRun(s, steps, newer) && s.status != Disabled
    ensures Run(s, steps, newer).status != Disabled
    decreases steps
  {
    if steps != [] {
      EnabledStaysEnabled(Apply(s, steps[0], newer), steps[1..], newer);
    }
  }

  // ---- Requests, entity tags and errors ------------------------------------------------------------------

  /** Without the option no nightly is ever asked for. */
  lemma {:induction false} NoNightlyUnlessWanted(s: State, steps: seq<Step>, newer: Order)
    requires ValidRun(s, steps, newer) && !s.includeNightly && s.nightlyInFlight == 0
    requires NightlyOption(true) !in steps
    ensures Run(s, steps, newer).nightlyInFlight == 0
    decreases steps
  {
    if steps != [] {
      assert steps[0] in steps;
      NoNightlyUnlessWanted(Apply(s, steps[0], newer), steps[1..], newer);
    }
  }

  /** The last entity tag a reply came with, if any came with one. */
  function LastTag(steps: seq<Step>, soFar: QString): QString
    decreases steps
  {
    if steps == [] then soFar
    else
      match steps[0]
      case LatestStep(Body(etag, _)) => LastTag(steps[1..], if etag == [] then soFar else etag)
      case _ => LastTag(steps[1..], soFar)
  }

  /** What the next request sends is the last entity tag received. */
  lemma {:induction false} TagIsTheLastReceived(s: State, steps: seq<Step>, newer: Order)
    requires ValidRun(s, steps, newer)
    ensures Run(s, steps, newer).etag == LastTag(steps, s.etag)
    decreases steps
  {
    if steps != [] {
      TagIsTheLastReceived(Apply(s, steps[0], newer), steps[1..], newer);
    }
  }

  /** A check ends in an error if and only if the request failed or its reply holds no release with a tag; and
      then the release recorded so far stays. A nightly that cannot be used changes nothing. */
  lemma UnusableRepliesAreErrors(s: State, reply: LatestReply, nightly: NightlyReply, newer: Order)
    requires s.status == Checking && s.latestInFlight > 0
    ensures var end := Apply(s, LatestStep(reply), newer);
            var unusable := reply.Failed? || (reply.Body? && (reply.release.None? || reply.release.value.tag == []));
            && (end.status == Error <==> unusable)
            && (unusable ==> end.latest == s.latest && end.nightlyInFlight == s.nightlyInFlight)
            && (!unusable && reply.Body? ==>
                  end.latest == reply.release.value
                  && end.nightlyInFlight == s.nightlyInFlight + (if s.includeNightly then 1 else 0))
    ensures nightly.NightlyFailed? || nightly.release.None? || nightly.release.value.tag == [] ==>
              OnNightly(s, nightly, newer) == s
  {
  }

  /** A check or a poll asks for the latest release at once, unless the service is disabled; a check does not
      where one is under way. */
  lemma ChecksAsk(s: State)
    ensures PerformCheck(s).latestInFlight == s.latestInFlight + (if s.status == Disabled then 0 else 1)
    ensures CheckNow(s).latestInFlight ==
            s.latestInFlight + (if s.status == Disabled || s.status == Checking then 0 else 1)
  {
  }
}
