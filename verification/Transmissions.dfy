/** Whole runs of the rover's reliability manager: the packets its checks hand out for
    sending again, and the notifications they give, are exactly those of the fates. */
module Transmissions {
  import opened Wire
  import opened Codec
  import opened Reliability
  import opened ReliabilityFacts
  import opened ManagerEvents
  import opened PacketFates

  /** A packet handed out to be sent again, to whom, and when. */
  datatype Copy = Copy(packet: Packet, to: Endpoint, at: int)

  /** A notification that a recipient does not answer, and when. */
  datatype Notice = Notice(to: Endpoint, at: int)

  /** The k-th repeat of the packet behind a life. */
  datatype Tag = Tag(life: nat, k: nat)

  /** The ledger; everything the checks handed out and notified; and what they should: the
      repeat behind each copy, and the life behind each notification. */
  datatype Record = Record(ledger: Ledger, copies: seq<Copy>, due: seq<Tag>, told: seq<Notice>, blamed: seq<nat>)

  function CopiesOf(resend: seq<(Packet, Endpoint)>, now: int): (r: seq<Copy>)
    ensures |r| == |resend| && forall i :: 0 <= i < |r| ==> r[i] == Copy(resend[i].0, resend[i].1, now)
  {
    seq(|resend|, i requires 0 <= i < |resend| => Copy(resend[i].0, resend[i].1, now))
  }

  function NoticesOf(notify: seq<Endpoint>, now: int): (r: seq<Notice>)
    ensures |r| == |notify| && forall i :: 0 <= i < |r| ==> r[i] == Notice(notify[i], now)
  {
    seq(|notify|, i requires 0 <= i < |notify| => Notice(notify[i], now))
  }

  /** What the manager puts out at an event. */
  function Output(s: State, t: Timed): Check {
    if t.event.RetransmitTick? then RetransmitTimer(s, t.now) else Check(s, [], [])
  }

  function DueNow(s: State, t: Timed): seq<uint8> {
    if Checks(s, t.event) then DueKeys(s.sent, Sorted(s.sent.Keys), t.now) else []
  }

  function ReportedNow(s: State, t: Timed): seq<uint8> {
    if Checks(s, t.event) then ReportedKeys(s.sent, Sorted(s.sent.Keys), t.now) else []
  }

  function LifeOf(g: Ledger, key: uint8): nat {
    if key in g.index then g.index[key] else 0
  }

  function TagOf(g: Ledger, key: uint8): Tag {
    var i := LifeOf(g, key);
    Tag(i, if i < |g.lives| then |g.lives[i].resends| else 0)
  }

  function TagsOf(g: Ledger, keys: seq<uint8>): (r: seq<Tag>)
    ensures |r| == |keys| && forall i :: 0 <= i < |r| ==> r[i] == TagOf(g, keys[i])
  {
    seq(|keys|, i requires 0 <= i < |keys| => TagOf(g, keys[i]))
  }

  function LivesOf(g: Ledger, keys: seq<uint8>): (r: seq<nat>)
    ensures |r| == |keys| && forall i :: 0 <= i < |r| ==> r[i] == LifeOf(g, keys[i])
  {
    seq(|keys|, i requires 0 <= i < |keys| => LifeOf(g, keys[i]))
  }

  function Note(c: Record, t: Timed): Record {
    var g, out := c.ledger, Output(c.ledger.state, t);
    Record(Step(g, t),
           c.copies + CopiesOf(out.resend, t.now), c.due + TagsOf(g, DueNow(g.state, t)),
           c.told + NoticesOf(out.notify, t.now), c.blamed + LivesOf(g, ReportedNow(g.state, t)))
  }

  function NoteAll(c: Record, ts: seq<Timed>): Record
    decreases |ts|
  {
    if ts == [] then c else NoteAll(Note(c, ts[0]), ts[1..])
  }

  lemma {:induction false} LedgerFollows(c: Record, ts: seq<Timed>)
    ensures NoteAll(c, ts).ledger == PacketFates.Run(c.ledger, ts)
    decreases |ts|
  {
    if ts != [] {
      LedgerFollows(Note(c, ts[0]), ts[1..]);
    }
  }

  predicate Empty(c: Record) {
    Fresh(c.ledger) && c.copies == [] && c.due == [] && c.told == [] && c.blamed == []
  }

  // ---------------------------------------------------------------- one event

  /** What does not change about a packet that entered the table. */
  predicate Grows(l: Life, l': Life) {
    && l'.seqNo == l.seqNo && l'.packet == l.packet && l'.recipient == l.recipient && l'.born == l.born
    && l.resends <= l'.resends
    && (l.fate.Abandoned? ==> l'.fate == l.fate)
  }

  lemma LifeGrows(l: Life, s: State, e: Event, now: int)
    ensures Grows(l, NextLife(l, s, e, now))
  {
  }

  /** The outputs of an event are those of the keys due and reported, in order. */
  lemma OutputExact(s: State, t: Timed)
    requires s.role == ROVER
    ensures var out, due, reported := Output(s, t), DueNow(s, t), ReportedNow(s, t);
            && Ascending(due) && Ascending(reported)
            && (forall k :: k in due <==> Checks(s, t.event) && k in s.sent && Due(s.sent[k], t.now))
            && (forall k :: k in reported <==> Checks(s, t.event) && k in s.sent && Reported(s.sent[k], t.now))
            && |out.resend| == |due| && |out.notify| == |reported|
            && (forall i :: 0 <= i < |due| ==>
                  due[i] in s.sent && out.resend[i] == (s.sent[due[i]].packet, s.sent[due[i]].recipient))
            && (forall i :: 0 <= i < |reported| ==>
                  reported[i] in s.sent && out.notify[i] == s.sent[reported[i]].recipient)
  {
    if Checks(s, t.event) {
      ResendExact(s, t.now);
      NotifyExact(s, t.now);
    }
  }

  lemma OutputKeys(s: State, t: Timed, k: uint8)
    requires s.role == ROVER
    ensures k in DueNow(s, t) <==> Checks(s, t.event) && k in s.sent && Due(s.sent[k], t.now)
    ensures k in ReportedNow(s, t) <==> Checks(s, t.event) && k in s.sent && Reported(s.sent[k], t.now)
  {
  }

  lemma LiveStep(l: Life, s: State, e: Event, now: int)
    requires l.fate.Live? && l.seqNo in s.sent
    ensures var l', info := NextLife(l, s, e, now), s.sent[l.seqNo];
            && l'.resends == (if Checks(s, e) && Due(info, now) then l.resends + [now] else l.resends)
            && (l'.fate.Abandoned? <==> Checks(s, e) && GivenUp(info, now))
            && (l'.fate.Abandoned? ==> l'.fate.at == now)
  {
  }

  lemma PastStep(l: Life, s: State, e: Event, now: int)
    requires !l.fate.Live?
    ensures NextLife(l, s, e, now) == l
  {
  }

  /** A check restarts the clock of a live packet exactly when its key is due. */
  lemma ResendsGrow(g: Ledger, t: Timed, i: nat)
    requires Indexed(g) && i < |g.lives|
    ensures var l, l' := g.lives[i], Step(g, t).lives[i];
            l'.resends == if l.fate.Live? && l.seqNo in DueNow(g.state, t) then l.resends + [t.now] else l.resends
  {
    var l := g.lives[i];
    if l.fate.Live? {
      LiveMatches(g, i);
      LiveStep(l, g.state, t.event, t.now);
      OutputKeys(g.state, t, l.seqNo);
    } else {
      PastStep(l, g.state, t.event, t.now);
    }
  }

  /** A check abandons a packet bound for port 9000 exactly when its key is reported. */
  lemma ReportsAbandon(g: Ledger, t: Timed, i: nat)
    requires Indexed(g) && i < |g.lives|
    ensures var l, l' := g.lives[i], Step(g, t).lives[i];
            (l'.fate.Abandoned? && l.recipient.port == 9000 && !l.fate.Abandoned?)
            <==> l.fate.Live? && l.seqNo in ReportedNow(g.state, t)
    ensures Step(g, t).lives[i].fate.Abandoned? && !g.lives[i].fate.Abandoned? ==>
              Step(g, t).lives[i].fate == Abandoned(t.now)
  {
    var l := g.lives[i];
    if l.fate.Live? {
      LiveMatches(g, i);
      LiveStep(l, g.state, t.event, t.now);
      OutputKeys(g.state, t, l.seqNo);
    } else {
      PastStep(l, g.state, t.event, t.now);
    }
  }

  /** The life behind a key: live, of that number, and with the entry's packet. */
  lemma KeyHasLife(g: Ledger, k: uint8)
    requires Indexed(g) && k in g.state.sent
    ensures var i := LifeOf(g, k);
            && i < |g.lives| && g.lives[i].fate.Live? && g.lives[i].seqNo == k
            && g.lives[i].packet == g.state.sent[k].packet && g.lives[i].recipient == g.state.sent[k].recipient
  {
    assert HasLife(g, k);
  }

  // ---------------------------------------------------------------- the correspondence

  ghost predicate NoRepeats<T(!new)>(s: seq<T>) {
    forall i, j :: 0 <= i < j < |s| ==> s[i] != s[j]
  }

  lemma NoRepeatsConcat<T(!new)>(a: seq<T>, b: seq<T>)
    requires NoRepeats(a) && NoRepeats(b) && forall i, j :: 0 <= i < |a| && 0 <= j < |b| ==> a[i] != b[j]
    ensures NoRepeats(a + b)
  {
  }

  predicate IsCopy(lives: seq<Life>, t: Tag, c: Copy) {
    && t.life < |lives| && t.k < |lives[t.life].resends|
    && c == Copy(lives[t.life].packet, lives[t.life].recipient, lives[t.life].resends[t.k])
  }

  predicate IsNotice(lives: seq<Life>, i: nat, n: Notice) {
    && i < |lives| && lives[i].fate.Abandoned? && lives[i].recipient.port == 9000
    && n == Notice(lives[i].recipient, lives[i].fate.at)
  }

  ghost predicate AllCopies(lives: seq<Life>, copies: seq<Copy>, due: seq<Tag>) {
    |copies| == |due| && forall a :: 0 <= a < |due| ==> IsCopy(lives, due[a], copies[a])
  }

  ghost predicate AllRepeated(lives: seq<Life>, due: seq<Tag>) {
    forall i, k :: 0 <= i < |lives| && 0 <= k < |lives[i].resends| ==> Tag(i, k) in due
  }

  /** The copies handed out are the repeats of the lives, one by one, each once, and all. */
  ghost predicate CopiesExact(lives: seq<Life>, copies: seq<Copy>, due: seq<Tag>) {
    AllCopies(lives, copies, due) && NoRepeats(due) && AllRepeated(lives, due)
  }

  ghost predicate AllNotices(lives: seq<Life>, told: seq<Notice>, blamed: seq<nat>) {
    |told| == |blamed| && forall a :: 0 <= a < |blamed| ==> IsNotice(lives, blamed[a], told[a])
  }

  ghost predicate AllBlamed(lives: seq<Life>, blamed: seq<nat>) {
    forall i :: 0 <= i < |lives| && lives[i].fate.Abandoned? && lives[i].recipient.port == 9000 ==> i in blamed
  }

  /** The notifications are those of the lives abandoned on the way to port 9000, one by one,
      each once, and all. */
  ghost predicate NoticesExact(lives: seq<Life>, told: seq<Notice>, blamed: seq<nat>) {
    AllNotices(lives, told, blamed) && NoRepeats(blamed) && AllBlamed(lives, blamed)
  }

  lemma OldLivesGrow(g: Ledger, t: Timed, i: nat)
    requires i < |g.lives|
    ensures i < |Step(g, t).lives| && Grows(g.lives[i], Step(g, t).lives[i])
  {
    LifeGrows(g.lives[i], g.state, t.event, t.now);
  }

  lemma NewLifeIsPlain(g: Ledger, t: Timed, i: nat)
    requires |g.lives| <= i < |Step(g, t).lives|
    ensures Step(g, t).lives[i].resends == [] && Step(g, t).lives[i].fate.Live?
  {
  }

  lemma NewTag(g: Ledger, t: Timed, a: nat)
    requires Indexed(g) && a < |DueNow(g.state, t)|
    ensures var k, tag := DueNow(g.state, t)[a], TagOf(g, DueNow(g.state, t)[a]);
            && k in g.state.sent && k in DueNow(g.state, t)
            && tag.life == LifeOf(g, k) < |g.lives| && tag.k == |g.lives[tag.life].resends|
            && g.lives[tag.life].fate.Live? && g.lives[tag.life].seqNo == k
  {
    var k := DueNow(g.state, t)[a];
    OutputKeys(g.state, t, k);
    KeyHasLife(g, k);
  }

  lemma GrownCopy(l: Life, l': Life, now: int)
    requires Grows(l, l') && l'.resends == l.resends + [now]
    ensures |l.resends| < |l'.resends| && l'.resends[|l.resends|] == now
  {
  }

  lemma OutputAt(s: State, t: Timed, a: nat)
    requires s.role == ROVER && a < |DueNow(s, t)|
    ensures a < |Output(s, t).resend| && DueNow(s, t)[a] in s.sent
    ensures var info := s.sent[DueNow(s, t)[a]]; Output(s, t).resend[a] == (info.packet, info.recipient)
  {
    OutputExact(s, t);
  }

  lemma NewCopy(g: Ledger, t: Timed, a: nat)
    requires Indexed(g) && a < |DueNow(g.state, t)|
    ensures a < |Output(g.state, t).resend|
    ensures IsCopy(Step(g, t).lives, TagOf(g, DueNow(g.state, t)[a]), CopiesOf(Output(g.state, t).resend, t.now)[a])
  {
    var k := DueNow(g.state, t)[a];
    var i := LifeOf(g, k);
    NewTag(g, t, a);
    OutputAt(g.state, t, a);
    KeyHasLife(g, k);
    ResendsGrow(g, t, i);
    OldLivesGrow(g, t, i);
    GrownCopy(g.lives[i], Step(g, t).lives[i], t.now);
  }

  lemma TagsDiffer(g: Ledger, t: Timed)
    requires Indexed(g)
    ensures NoRepeats(TagsOf(g, DueNow(g.state, t)))
  {
    OutputExact(g.state, t);
    var due := DueNow(g.state, t);
    forall a, b | 0 <= a < b < |due| ensures TagOf(g, due[a]) != TagOf(g, due[b]) {
      NewTag(g, t, a);
      NewTag(g, t, b);
    }
  }

  ghost predicate AllGrow(lives: seq<Life>, lives': seq<Life>) {
    |lives| <= |lives'| && forall i :: 0 <= i < |lives| ==> Grows(lives[i], lives'[i])
  }

  lemma StepGrows(g: Ledger, t: Timed)
    ensures AllGrow(g.lives, Step(g, t).lives)
  {
    forall i | 0 <= i < |g.lives| ensures Grows(g.lives[i], Step(g, t).lives[i]) {
      OldLivesGrow(g, t, i);
    }
  }

  lemma AllCopiesConcat(lives: seq<Life>, lives': seq<Life>, copies: seq<Copy>, due: seq<Tag>,
                        more: seq<Copy>, tags: seq<Tag>)
    requires AllGrow(lives, lives') && AllCopies(lives, copies, due) && AllCopies(lives', more, tags)
    ensures AllCopies(lives', copies + more, due + tags)
  {
    forall a | 0 <= a < |due + tags| ensures IsCopy(lives', (due + tags)[a], (copies + more)[a]) {
      if a < |due| {
        assert IsCopy(lives, due[a], copies[a]);
      } else {
        assert IsCopy(lives', tags[a - |due|], more[a - |due|]);
      }
    }
  }

  lemma NewCopies(g: Ledger, t: Timed)
    requires Indexed(g)
    ensures AllCopies(Step(g, t).lives, CopiesOf(Output(g.state, t).resend, t.now), TagsOf(g, DueNow(g.state, t)))
  {
    OutputExact(g.state, t);
    var lives, copies, keys := Step(g, t).lives, CopiesOf(Output(g.state, t).resend, t.now), DueNow(g.state, t);
    forall a | 0 <= a < |keys| ensures IsCopy(lives, TagsOf(g, keys)[a], copies[a]) {
      NewCopy(g, t, a);
    }
  }

  lemma CopiesStay(c: Record, t: Timed)
    requires Indexed(c.ledger) && AllCopies(c.ledger.lives, c.copies, c.due)
    ensures var n := Note(c, t); AllCopies(n.ledger.lives, n.copies, n.due)
  {
    var g := c.ledger;
    StepGrows(g, t);
    NewCopies(g, t);
    AllCopiesConcat(g.lives, Step(g, t).lives, c.copies, c.due,
                    CopiesOf(Output(g.state, t).resend, t.now), TagsOf(g, DueNow(g.state, t)));
  }

  lemma TagsStayDifferent(c: Record, t: Timed)
    requires Indexed(c.ledger) && AllCopies(c.ledger.lives, c.copies, c.due) && NoRepeats(c.due)
    ensures NoRepeats(Note(c, t).due)
  {
    var g, tags := c.ledger, TagsOf(c.ledger, DueNow(c.ledger.state, t));
    forall a, b | 0 <= a < |c.due| && 0 <= b < |tags| ensures c.due[a] != tags[b] {
      assert IsCopy(g.lives, c.due[a], c.copies[a]);
      NewTag(g, t, b);
    }
    TagsDiffer(g, t);
    NoRepeatsConcat(c.due, tags);
  }

  lemma StepKeepsCopies(c: Record, t: Timed)
    requires Indexed(c.ledger) && CopiesExact(c.ledger.lives, c.copies, c.due)
    ensures var n := Note(c, t); CopiesExact(n.ledger.lives, n.copies, n.due)
  {
    CopiesStay(c, t);
    TagsStayDifferent(c, t);
    RepeatsStay(c.ledger, t, c.due);
  }

  /** A key that is due brings the next repeat of its life. */
  lemma DueBringsTag(g: Ledger, keys: seq<uint8>, i: nat)
    requires Indexed(g) && i < |g.lives| && g.lives[i].fate.Live? && g.lives[i].seqNo in keys
    ensures Tag(i, |g.lives[i].resends|) in TagsOf(g, keys) && i in LivesOf(g, keys)
  {
    var a :| 0 <= a < |keys| && keys[a] == g.lives[i].seqNo;
    assert HasEntry(g, i);
    assert TagsOf(g, keys)[a] == Tag(i, |g.lives[i].resends|) && LivesOf(g, keys)[a] == i;
  }

  lemma GrowthBringsTag(g: Ledger, keys: seq<uint8>, now: int, grown: seq<int>, i: nat, k: nat)
    requires Indexed(g) && i < |g.lives| && |g.lives[i].resends| <= k < |grown|
    requires var l := g.lives[i];
             grown == if l.fate.Live? && l.seqNo in keys then l.resends + [now] else l.resends
    ensures Tag(i, k) in TagsOf(g, keys)
  {
    DueBringsTag(g, keys, i);
  }

  lemma NewRepeat(g: Ledger, t: Timed, i: nat, k: nat)
    requires Indexed(g) && i < |Step(g, t).lives| && k < |Step(g, t).lives[i].resends|
    requires i < |g.lives| ==> k >= |g.lives[i].resends|
    ensures Tag(i, k) in TagsOf(g, DueNow(g.state, t))
  {
    if i >= |g.lives| {
      NewLifeIsPlain(g, t, i);
    } else {
      ResendsGrow(g, t, i);
      GrowthBringsTag(g, DueNow(g.state, t), t.now, Step(g, t).lives[i].resends, i, k);
    }
  }

  lemma RepeatsStay(g: Ledger, t: Timed, due: seq<Tag>)
    requires Indexed(g) && AllRepeated(g.lives, due)
    ensures AllRepeated(Step(g, t).lives, due + TagsOf(g, DueNow(g.state, t)))
  {
    var lives, tags := Step(g, t).lives, TagsOf(g, DueNow(g.state, t));
    forall i, k | 0 <= i < |lives| && 0 <= k < |lives[i].resends| ensures Tag(i, k) in due + tags {
      if i >= |g.lives| || k >= |g.lives[i].resends| {
        NewRepeat(g, t, i, k);
      } else {
        assert Tag(i, k) in due;
      }
    }
  }

  lemma NewNotice(g: Ledger, t: Timed, a: nat)
    requires Indexed(g) && a < |ReportedNow(g.state, t)|
    ensures a < |Output(g.state, t).notify|
    ensures var i := LifeOf(g, ReportedNow(g.state, t)[a]);
            && IsNotice(Step(g, t).lives, i, NoticesOf(Output(g.state, t).notify, t.now)[a])
            && i < |g.lives| && g.lives[i].fate.Live? && g.lives[i].seqNo == ReportedNow(g.state, t)[a]
  {
    OutputExact(g.state, t);
    var k := ReportedNow(g.state, t)[a];
    KeyHasLife(g, k);
    ReportsAbandon(g, t, LifeOf(g, k));
    OldLivesGrow(g, t, LifeOf(g, k));
  }

  lemma BlamesDiffer(g: Ledger, t: Timed)
    requires Indexed(g)
    ensures NoRepeats(LivesOf(g, ReportedNow(g.state, t)))
  {
    OutputExact(g.state, t);
    var keys := ReportedNow(g.state, t);
    forall a, b | 0 <= a < b < |keys| ensures LifeOf(g, keys[a]) != LifeOf(g, keys[b]) {
      NewNotice(g, t, a);
      NewNotice(g, t, b);
    }
  }

  lemma AllNoticesConcat(lives: seq<Life>, lives': seq<Life>, told: seq<Notice>, blamed: seq<nat>,
                         more: seq<Notice>, blames: seq<nat>)
    requires AllGrow(lives, lives') && AllNotices(lives, told, blamed) && AllNotices(lives', more, blames)
    ensures AllNotices(lives', told + more, blamed + blames)
  {
    forall a | 0 <= a < |blamed + blames| ensures IsNotice(lives', (blamed + blames)[a], (told + more)[a]) {
      if a < |blamed| {
        assert IsNotice(lives, blamed[a], told[a]);
      } else {
        assert IsNotice(lives', blames[a - |blamed|], more[a - |blamed|]);
      }
    }
  }

  lemma NewNotices(g: Ledger, t: Timed)
    requires Indexed(g)
    ensures AllNotices(Step(g, t).lives, NoticesOf(Output(g.state, t).notify, t.now),
                       LivesOf(g, ReportedNow(g.state, t)))
  {
    OutputExact(g.state, t);
    var lives, notices, keys := Step(g, t).lives, NoticesOf(Output(g.state, t).notify, t.now), ReportedNow(g.state, t);
    forall a | 0 <= a < |keys| ensures IsNotice(lives, LivesOf(g, keys)[a], notices[a]) {
      NewNotice(g, t, a);
    }
  }

  lemma NoticesStay(c: Record, t: Timed)
    requires Indexed(c.ledger) && AllNotices(c.ledger.lives, c.told, c.blamed)
    ensures var n := Note(c, t); AllNotices(n.ledger.lives, n.told, n.blamed)
  {
    var g := c.ledger;
    StepGrows(g, t);
    NewNotices(g, t);
    AllNoticesConcat(g.lives, Step(g, t).lives, c.told, c.blamed,
                     NoticesOf(Output(g.state, t).notify, t.now), LivesOf(g, ReportedNow(g.state, t)));
  }

  lemma BlamesStayDifferent(c: Record, t: Timed)
    requires Indexed(c.ledger) && AllNotices(c.ledger.lives, c.told, c.blamed) && NoRepeats(c.blamed)
    ensures NoRepeats(Note(c, t).blamed)
  {
    var g, blamed := c.ledger, LivesOf(c.ledger, ReportedNow(c.ledger.state, t));
    forall a, b | 0 <= a < |c.blamed| && 0 <= b < |blamed| ensures c.blamed[a] != blamed[b] {
      assert IsNotice(g.lives, c.blamed[a], c.told[a]);
      NewNotice(g, t, b);
    }
    BlamesDiffer(g, t);
    NoRepeatsConcat(c.blamed, blamed);
  }

  lemma StepKeepsNotices(c: Record, t: Timed)
    requires Indexed(c.ledger) && NoticesExact(c.ledger.lives, c.told, c.blamed)
    ensures var n := Note(c, t); NoticesExact(n.ledger.lives, n.told, n.blamed)
  {
    NoticesStay(c, t);
    BlamesStayDifferent(c, t);
    var n := Note(c, t);
    forall i | 0 <= i < |n.ledger.lives| && n.ledger.lives[i].fate.Abandoned?
               && n.ledger.lives[i].recipient.port == 9000
      ensures i in n.blamed
    {
      AbandonedIsBlamed(c, t, i);
    }
  }

  lemma AbandonedIsBlamed(c: Record, t: Timed, i: nat)
    requires Indexed(c.ledger) && AllBlamed(c.ledger.lives, c.blamed)
    requires i < |Note(c, t).ledger.lives|
    requires var l := Note(c, t).ledger.lives[i]; l.fate.Abandoned? && l.recipient.port == 9000
    ensures i in Note(c, t).blamed
  {
    var g := c.ledger;
    if i >= |g.lives| {
      NewLifeIsPlain(g, t, i);
    } else {
      OldLivesGrow(g, t, i);
      ReportsAbandon(g, t, i);
      if !g.lives[i].fate.Abandoned? {
        DueBringsTag(g, ReportedNow(g.state, t), i);
      }
    }
  }

  // ---------------------------------------------------------------- whole runs

  ghost predicate Faithful(c: Record) {
    && Indexed(c.ledger) && Scheduled(c.ledger)
    && CopiesExact(c.ledger.lives, c.copies, c.due)
    && NoticesExact(c.ledger.lives, c.told, c.blamed)
  }

  lemma NoteStaysFaithful(c: Record, t: Timed)
    requires Faithful(c)
    ensures Faithful(Note(c, t))
  {
    StepKeepsIndex(c.ledger, t);
    StepKeepsSchedule(c.ledger, t);
    StepKeepsCopies(c, t);
    StepKeepsNotices(c, t);
  }

  lemma {:induction false} NotesStayFaithful(c: Record, ts: seq<Timed>)
    requires Faithful(c)
    ensures Faithful(NoteAll(c, ts))
    decreases |ts|
  {
    if ts != [] {
      NoteStaysFaithful(c, ts[0]);
      NotesStayFaithful(Note(c, ts[0]), ts[1..]);
    }
  }

  /** In every run, the packets that the checks hand out are, one by one, the repeats of the
      packets tracked, to their recipients and at their times; each repeat is handed out once
      and none is left out; and exactly the packets abandoned on the way to port 9000 are
      notified, once each, at that time. */
  lemma OutputsAreFates(c: Record, ts: seq<Timed>)
    requires Empty(c)
    ensures var r := NoteAll(c, ts);
            && r.ledger == PacketFates.Run(c.ledger, ts)
            && CopiesExact(r.ledger.lives, r.copies, r.due) && NoticesExact(r.ledger.lives, r.told, r.blamed)
  {
    NotesStayFaithful(c, ts);
    LedgerFollows(c, ts);
  }

  /** So in every run a packet tracked at `born` is handed out again at most twice, the k-th
      time later than 5000*(2^k - 1) ms after. */
  lemma CopiesKeepBackoff(c: Record, ts: seq<Timed>, a: nat)
    requires Empty(c) && a < |NoteAll(c, ts).copies|
    ensures var r := NoteAll(c, ts);
            && a < |r.due| && r.due[a].life < |r.ledger.lives| && r.due[a].k < 2
            && r.copies[a].at > r.ledger.lives[r.due[a].life].born + BASE_TIMEOUT * (Pow2(r.due[a].k + 1) - 1)
  {
    NotesStayFaithful(c, ts);
    LedgerFollows(c, ts);
    var r := NoteAll(c, ts);
    assert IsCopy(r.ledger.lives, r.due[a], r.copies[a]);
    BackoffLowerBounds(c.ledger, ts, r.ledger.lives[r.due[a].life]);
  }
}
