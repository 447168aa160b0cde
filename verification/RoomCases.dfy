/**
 Short runs that end badly. Two in which a client authenticates twice on one socket: one ends
 with a request that nobody waits for any more, one with a machine that is shown but not there.
 And one in which a machine closes politely and is listed, but shown no more.
 */
module RoomCases {
  import opened Wrappers
  import opened Routing
  import opened Peers
  import opened RoomState
  import opened RoomRoster
  import opened RoomRuns

  function Machine(id: string): AgentInfo {
    Routing.Socket(true, false).(id := id)
  }

  function Arrive(k: Sock): Happening {
    Accepted(k, "", "", 0)
  }

  function SignOn(k: Sock, id: string, session: string): Happening {
    Received(k, AuthMsg("", Some(Machine(id))), session, 0)
  }

  /** Possible, and against neither discipline. */
  ghost predicate Orderly(r: Room, h: Happening) {
    Possible(r, h) && Patient(r, h) && Steady(r, h)
  }

  ghost predicate OrderlyRun(r: Room, hs: seq<Happening>) {
    Run(r, hs) && PatientRun(r, hs) && SteadyRun(r, hs)
  }

  /** What one socket looks like after it signed on. */
  predicate SignedOn(r: Room, k: Sock, id: string, session: string) {
    k in r.conns && r.conns[k].agent == Some(Machine(id).(session := session)) && r.conns[k].session == Some(session) &&
    r.conns[k].token == "" && !r.conns[k].closing
  }

  predicate Waiting(r: Room, k: Sock) {
    k in r.conns && r.conns[k].agent.None? && r.conns[k].session.None? && r.conns[k].token == "" && !r.conns[k].closing
  }

  lemma SignsOn(r: Room, k: Sock, id: string, session: string)
    requires Seated(r) && Waiting(r, k) && r.serverToken == "" && Unused(r, session)
    ensures var h := SignOn(k, id, session);
            Orderly(r, h) && Seated(Next(r, h)) && Seats(r, Next(r, h), k) && SignedOn(Next(r, h), k, id, session)
  {
    NextSeated(r, SignOn(k, id, session));
    SeatedTouch(r, k, 0);
    AuthSignsOn(Touch(r, k, 0), k, id, session);
    TouchedSeats(r, Next(r, SignOn(k, id, session)), k);
  }

  lemma TouchedSeats(r: Room, s: Room, k: Sock)
    requires k in r.conns && Seats(Touch(r, k, 0), s, k)
    ensures Seats(r, s, k)
  {
    forall j | j in r.conns && j != k ensures SameSeat(r.conns[j], s.conns[j]) {
      assert SameSeat(Touch(r, k, 0).conns[j], s.conns[j]);
    }
  }

  lemma AuthSignsOn(t: Room, k: Sock, id: string, session: string)
    requires Seated(t) && Waiting(t, k) && t.serverToken == ""
    ensures var s := Auth(t, k, "", Some(Machine(id)), session, 0); Seats(t, s, k) && SignedOn(s, k, id, session)
  {
    var e, a := AuthShape(t, k, "", Some(Machine(id)), session, 0);
  }

  /** Nothing changed but `k`, in ways that matter here. */
  ghost predicate Seats(r: Room, s: Room, k: Sock) {
    s.conns.Keys == r.conns.Keys && s.serverToken == r.serverToken && s.pending == r.pending &&
    forall j :: j in r.conns && j != k ==> SameSeat(r.conns[j], s.conns[j])
  }

  lemma Arrives(r: Room, k: Sock)
    requires Seated(r) && k !in r.conns
    ensures var s := Next(r, Arrive(k));
            Orderly(r, Arrive(k)) && Seated(s) && Waiting(s, k) &&
            s.conns.Keys == r.conns.Keys + {k} && s.serverToken == r.serverToken && s.pending == r.pending &&
            forall j :: j in r.conns ==> s.conns[j] == r.conns[j]
  {
    NextSeated(r, Arrive(k));
  }

  lemma OneStep(r: Room, hs: seq<Happening>)
    requires hs != [] && Seated(r) && Orderly(r, hs[0]) && OrderlyRun(Next(r, hs[0]), hs[1..])
    ensures OrderlyRun(r, hs) && After(r, hs) == After(Next(r, hs[0]), hs[1..])
  {}

  lemma TwoSteps(r: Room, a: Happening, b: Happening)
    requires Seated(r) && Orderly(r, a) && Seated(Next(r, a)) && Orderly(Next(r, a), b)
    ensures OrderlyRun(r, [a, b]) && After(r, [a, b]) == Next(Next(r, a), b)
  {
    OneStep(Next(r, a), [b]);
    assert [a, b][1..] == [b];
    OneStep(r, [a, b]);
  }

  // --- a stranded request --------------------------------------------------------------

  const ISSUE := Received(0, CommandMsg("r", Target.All, "p"), "s2", 0)

  /** A command to all from the only machine there has a target: that machine. */
  lemma CommandIsInFlight(r: Room)
    requires Seated(r) && SignedOn(r, 0, "a", "s1") && Unused(r, "s2") && r.pending == map[]
    ensures var s := Next(r, ISSUE);
            Orderly(r, ISSUE) && Seated(s) && s.pending == map["r" := "s1"] &&
            s.conns.Keys == r.conns.Keys && s.conns[0].session == Some("s1")
  {
    NextSeated(r, ISSUE);
    var t := Touch(r, 0, 0);
    SeatedTouch(r, 0, 0);
    var cands := Cands(t.order, t.conns);
    CandsSeated(t.order, t.conns);
    assert Candidate(r.conns[0].agent.value, 0) in cands;
    PicksSelect(cands, Target.All);
    assert Routing.Reachable("a", cands, Target.All);
    assert Contacts(Picks(cands, Target.All), "a");
    assert Issues(t, 0, ISSUE.msg);
    OtherMessages(t, 0, ISSUE.msg, "s2", 0);
  }

  const AGAIN := SignOn(0, "a", "s3")

  /** One socket, whose session waits for one answer. */
  ghost predicate OneWaits(r: Room) {
    Seated(r) && r.pending == map["r" := "s1"] && r.conns.Keys == {0} && r.serverToken == "" &&
    r.conns[0].session == Some("s1") && r.conns[0].token == ""
  }

  lemma StrandsTouched(t: Room)
    requires Seated(t) && t.pending == map["r" := "s1"] && t.conns.Keys == {0} && t.serverToken == ""
    requires t.conns[0].session == Some("s1") && t.conns[0].token == ""
    ensures AllWaiting(t) && !AllWaiting(Auth(t, 0, "", Some(Machine("a")), "s3", 0))
  {
    assert SomebodyWaits(t, "s1");
    SecondAuthStrands(t, 0, "", Some(Machine("a")), "s3", 0);
    assert "r" in t.pending;
  }

  lemma Strands(r: Room)
    requires OneWaits(r)
    ensures Seated(r) && AllWaiting(r) && Possible(r, AGAIN) && !AllWaiting(Next(r, AGAIN))
  {
    SeatedTouch(r, 0, 0);
    StrandsTouched(Touch(r, 0, 0));
    assert SomebodyWaits(r, "s1");
  }

  lemma CommandWaits(r: Room)
    requires Seated(r) && SignedOn(r, 0, "a", "s1") && r.conns.Keys == {0} && r.pending == map[] && r.serverToken == ""
    ensures Orderly(r, ISSUE) && OneWaits(Next(r, ISSUE))
  {
    CommandIsInFlight(r);
    CommandKeepsToken(r);
  }

  lemma SignsOnAndAsks(r: Room)
    requires Seated(r) && Waiting(r, 0) && r.conns.Keys == {0} && r.pending == map[] && r.serverToken == ""
    ensures OrderlyRun(r, [SignOn(0, "a", "s1"), ISSUE]) && OneWaits(After(r, [SignOn(0, "a", "s1"), ISSUE]))
  {
    SignsOn(r, 0, "a", "s1");
    CommandWaits(Next(r, SignOn(0, "a", "s1")));
    TwoSteps(r, SignOn(0, "a", "s1"), ISSUE);
  }

  const STRANDED := [Arrive(0), SignOn(0, "a", "s1"), ISSUE]

  lemma OneComesToWait()
    ensures OrderlyRun(Empty(""), STRANDED) && OneWaits(After(Empty(""), STRANDED))
  {
    var r := Next(Empty(""), Arrive(0));
    Arrives(Empty(""), 0);
    SignsOnAndAsks(r);
    assert STRANDED[1..] == [SignOn(0, "a", "s1"), ISSUE];
    OneStep(Empty(""), STRANDED);
  }

  /** Arrive, sign on, send a command, sign on again: nobody waits for the answer any more. */
  lemma SecondAuthCanStrand()
    ensures OrderlyRun(Empty(""), STRANDED)
    ensures var r := After(Empty(""), STRANDED);
            Seated(r) && AllWaiting(r) && Possible(r, AGAIN) && !AllWaiting(Next(r, AGAIN))
  {
    OneComesToWait();
    Strands(After(Empty(""), STRANDED));
  }

  lemma CommandKeepsToken(r: Room)
    requires Seated(r) && SignedOn(r, 0, "a", "s1") && Unused(r, "s2")
    ensures var s := Next(r, ISSUE); 0 in s.conns && s.conns[0].token == "" && s.serverToken == r.serverToken
  {
    var t := Touch(r, 0, 0);
    SeatedTouch(r, 0, 0);
    CommandedSeats(t, 0, ISSUE.msg);
    assert SameSeat(t.conns[0], Next(r, ISSUE).conns[0]);
    var cands := Cands(t.order, t.conns);
    if Picks(cands, Target.All) != [] {
      PicksAreCands(cands, Target.All);
      CandsSeated(t.order, t.conns);
      TargetsKeepToken(t.(pending := t.pending["r" := "s1"]), Picks(cands, Target.All), Peers.Command("r", "s1", "p"));
    }
  }

  lemma {:induction false} TargetsKeepToken(r: Room, targets: seq<Candidate<Sock>>, f: Frame)
    requires forall c :: c in targets ==> c.item in r.conns
    ensures ToTargets(r, targets, f).serverToken == r.serverToken
    decreases |targets|
  {
    if targets != [] { TargetsKeepToken(Send(r, targets[0].item, f), targets[1..], f); }
  }

  // --- a haunted view ----------------------------------------------------------------------

  const ELSE := SignOn(0, "c", "s3")

  /** Two machines, both signed on. */
  ghost predicate TwoSignedOn(r: Room) {
    Seated(r) && SignedOn(r, 0, "a", "s2") && SignedOn(r, 1, "b", "s1") && r.conns.Keys == {0, 1} &&
    r.serverToken == "" && r.pending == map[]
  }

  lemma HauntsTouched(t: Room)
    requires Good(t) && SignedOn(t, 0, "a", "s2") && SignedOn(t, 1, "b", "s1") && t.conns.Keys == {0, 1} && t.serverToken == ""
    ensures !Roster(Auth(t, 0, "", Some(Machine("c")), "s3", 0))
  {
    assert !HeldElsewhere(t, 0, "a");
    SecondAuthHaunts(t, 0, "", Some(Machine("c")), "s3", 0, 1);
    StillInformed(t);
  }

  lemma Haunts(r: Room)
    requires TwoSignedOn(r) && Good(r)
    ensures Possible(r, ELSE) && !Roster(Next(r, ELSE))
  {
    TouchIsQuiet(r, 0);
    QuietKeeps(r, Touch(r, 0, 0));
    HauntsTouched(Touch(r, 0, 0));
  }

  lemma TouchIsQuiet(r: Room, k: Sock)
    requires k in r.conns
    ensures Quiet(r, Touch(r, k, 0))
  {}

  lemma StillInformed(t: Room)
    requires Seated(t) && SignedOn(t, 1, "b", "s1") && HasList(t.conns[1].wire) && 0 in t.conns && Admits(t, 0, "")
    ensures var s := Auth(t, 0, "", Some(Machine("c")), "s3", 0); 1 in s.conns && Informed(s.conns[1])
  {
    var e, a := AuthShape(t, 0, "", Some(Machine("c")), "s3", 0);
    HeardShows(t.conns[1], AgentJoined(a));
  }

  lemma FirstSignsOn(r: Room)
    requires Seated(r) && Waiting(r, 0) && Waiting(r, 1) && r.conns.Keys == {0, 1} && r.serverToken == "" && r.pending == map[]
    ensures var s := Next(r, SignOn(1, "b", "s1"));
            Orderly(r, SignOn(1, "b", "s1")) && Seated(s) && Waiting(s, 0) && SignedOn(s, 1, "b", "s1") &&
            s.conns.Keys == {0, 1} && s.serverToken == "" && s.pending == map[]
  {
    SignsOn(r, 1, "b", "s1");
    assert SameSeat(r.conns[0], Next(r, SignOn(1, "b", "s1")).conns[0]);
  }

  lemma SecondSignsOn(r: Room)
    requires Seated(r) && Waiting(r, 0) && SignedOn(r, 1, "b", "s1") && r.conns.Keys == {0, 1} && r.serverToken == "" && r.pending == map[]
    ensures Orderly(r, SignOn(0, "a", "s2")) && TwoSignedOn(Next(r, SignOn(0, "a", "s2")))
  {
    SignsOn(r, 0, "a", "s2");
    assert SameSeat(r.conns[1], Next(r, SignOn(0, "a", "s2")).conns[1]);
  }

  lemma BothSignOn(r: Room)
    requires Seated(r) && Waiting(r, 0) && Waiting(r, 1) && r.conns.Keys == {0, 1} && r.serverToken == "" && r.pending == map[]
    ensures var hs := [SignOn(1, "b", "s1"), SignOn(0, "a", "s2")]; OrderlyRun(r, hs) && TwoSignedOn(After(r, hs))
  {
    FirstSignsOn(r);
    SecondSignsOn(Next(r, SignOn(1, "b", "s1")));
    TwoSteps(r, SignOn(1, "b", "s1"), SignOn(0, "a", "s2"));
  }

  const HAUNTED := [Arrive(0), Arrive(1), SignOn(1, "b", "s1"), SignOn(0, "a", "s2")]

  lemma TwoComeToSignOn()
    ensures OrderlyRun(Empty(""), HAUNTED) && TwoSignedOn(After(Empty(""), HAUNTED)) && Good(After(Empty(""), HAUNTED))
  {
    var r := Next(Empty(""), Arrive(0));
    var s := Next(r, Arrive(1));
    Arrives(Empty(""), 0);
    Arrives(r, 1);
    BothSignOn(s);
    assert HAUNTED[1..] == [Arrive(1), SignOn(1, "b", "s1"), SignOn(0, "a", "s2")];
    assert HAUNTED[1..][1..] == [SignOn(1, "b", "s1"), SignOn(0, "a", "s2")];
    OneStep(r, HAUNTED[1..]);
    OneStep(Empty(""), HAUNTED);
    RunGood(Empty(""), HAUNTED);
  }

  /** Two machines arrive and sign on; the first signs on again under another id. The second
      goes on showing the first id, which no socket holds. */
  lemma SecondAuthCanHaunt()
    ensures OrderlyRun(Empty(""), HAUNTED)
    ensures var r := After(Empty(""), HAUNTED); Good(r) && Possible(r, ELSE) && !Roster(Next(r, ELSE))
  {
    TwoComeToSignOn();
    Haunts(After(Empty(""), HAUNTED));
  }

  // --- listed but not shown -------------------------------------------------------------------

  const BYE := Received(0, CloseMsg, "s3", 0)

  ghost predicate ListedNotShown(s: Room) {
    "a" in AllIds(s) && 1 in s.conns && Informed(s.conns[1]) && "a" !in Shown(s.conns[1])
  }

  lemma ByeCloses(r: Room)
    requires Seated(r) && Possible(r, BYE)
    ensures Next(r, BYE) == Close(Disconnect(Touch(r, 0, 0), 0), 0)
  {}

  lemma StillTwo(r: Room)
    requires TwoSignedOn(r) && Good(r)
    ensures var t := Touch(r, 0, 0);
            Good(t) && SignedOn(t, 0, "a", "s2") && SignedOn(t, 1, "b", "s1") && t.conns.Keys == {0, 1}
  {
    TouchIsQuiet(r, 0);
    QuietKeeps(r, Touch(r, 0, 0));
  }

  lemma SaysBye(r: Room)
    requires TwoSignedOn(r) && Good(r)
    ensures Orderly(r, BYE) && ListedNotShown(Next(r, BYE))
  {
    ByeCloses(r);
    StillTwo(r);
    ByeTouched(Touch(r, 0, 0));
  }

  lemma ByeTouched(t: Room)
    requires Good(t) && SignedOn(t, 0, "a", "s2") && SignedOn(t, 1, "b", "s1") && t.conns.Keys == {0, 1}
    ensures ListedNotShown(Close(Disconnect(t, 0), 0))
  {
    assert !HeldElsewhere(t, 0, "a");
    DisconnectShape(t, 0);
    HeardShows(t.conns[1], AgentLeft("a"));
    LeavingIds(t, Disconnect(t, 0), Close(Disconnect(t, 0), 0), 0);
    assert t.conns[0].agent.value.id in AllIds(t);
  }

  /** Two machines sign on, then the first sends a close frame: until its socket is reported
      closed the room lists it, and the second has stopped showing it. */
  lemma ClosingIsListedNotShown()
    ensures OrderlyRun(Empty(""), HAUNTED)
    ensures var r := After(Empty(""), HAUNTED);
            Seated(r) && Orderly(r, BYE) && ListedNotShown(Next(r, BYE))
  {
    TwoComeToSignOn();
    SaysBye(After(Empty(""), HAUNTED));
  }
}
