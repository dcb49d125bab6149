/**
 * The remote log reader across files: when a file is read to its end and a newer one exists, the
 * reader switches, remembering how far it got, and comes back to a file where it left it.
 */
module LogRotation {
  import opened LogReader
  import opened LogSessions

  const MAX_TRACKED_FILES := 2500

  /** Where the reader stands: its session, the file size it knows, the offsets it remembers, its earlier sessions. */
  datatype Where = Where(now: Session, size: nat, offsets: map<string, nat>, past: seq<Session>)

  function All(w: Where): seq<Session> {
    w.past + [w.now]
  }

  datatype Newer = None | Newer(name: string)

  /** What one look at the log directory shows: the size of every file, and a newer file if there is one. */
  datatype Look = Look(sizes: map<string, nat>, newer: Newer)

  /** The current file is `latest` long now; unless that is where the reader stands, it reads the next chunk. */
  function Followed(files: map<string, string>, w: Where, latest: nat): Where {
    if w.now.name in files && w.now.to < latest <= |files[w.now.name]| then
      var c := ChunkOf(files[w.now.name], w.now.to, latest);
      w.(size := latest, now := w.now.(to := c.at, log := w.now.log + [c], handed := w.now.handed + (c.lines + [c.extra])))
    else w.(size := latest)
  }

  /** The offsets after leaving a file; too many are forgotten all at once. */
  function Remember(offsets: map<string, nat>, name: string, size: nat): map<string, nat> {
    if |offsets[name := size]| > MAX_TRACKED_FILES then map[] else offsets[name := size]
  }

  function OffsetsAfter(truncate: bool, w: Where): map<string, nat> {
    if truncate then w.offsets else Remember(w.offsets, w.now.name, w.size)
  }

  function Resume(offsets: map<string, nat>, truncate: bool, fileName: string): nat {
    if fileName in offsets && !truncate then offsets[fileName] else 0
  }

  /** A new session in another file, from the remembered offset or the beginning. */
  function Switched(truncate: bool, w: Where, fileName: string, size: nat): Where {
    var offsets := OffsetsAfter(truncate, w);
    var from := Resume(offsets, truncate, fileName);
    Where(Session(fileName, from, from, [], []), size, offsets, All(w))
  }

  /** The current file is read to its end, has not grown, and there is a newer one. */
  predicate Switches(w: Where, look: Look) {
    && w.now.name in look.sizes && w.size == look.sizes[w.now.name] && w.now.to == w.size
    && look.newer.Newer? && look.newer.name != w.now.name && look.newer.name in look.sizes
  }

  /** One look at the log directory. */
  function Turned(files: map<string, string>, truncate: bool, w: Where, look: Look): Where {
    if Switches(w, look) then
      var size := look.sizes[look.newer.name];
      Followed(files, Switched(truncate, w, look.newer.name, size), size)
    else if w.now.name in look.sizes then Followed(files, w, look.sizes[w.now.name])
    else w
  }

  function TurnedAll(files: map<string, string>, truncate: bool, w: Where, looks: seq<Look>): Where {
    if looks == [] then w else Turned(files, truncate, TurnedAll(files, truncate, w, looks[..|looks| - 1]), looks[|looks| - 1])
  }

  lemma {:induction false} TurnsMore(files: map<string, string>, truncate: bool, w: Where, looks: seq<Look>, i: nat)
    requires i < |looks|
    ensures TurnedAll(files, truncate, w, looks[..i + 1]) == Turned(files, truncate, TurnedAll(files, truncate, w, looks[..i]), looks[i])
  {
    hide Turned;
    assert looks[..i + 1][..i] == looks[..i];
  }

  lemma {:induction false} TurnsNone(files: map<string, string>, truncate: bool, w: Where, looks: seq<Look>)
    ensures TurnedAll(files, truncate, w, looks[..0]) == w
  {
  }

  /* ---- what every look keeps ---- */

  /** A remembered offset is where the last session of its file ended. */
  ghost predicate OffsetsOk(files: map<string, string>, past: seq<Session>, offsets: map<string, nat>) {
    forall f :: f in offsets ==> f in files && EndIn(past, f) == ReadTo(offsets[f])
  }

  /** Every file read before is remembered. */
  ghost predicate AllRemembered(past: seq<Session>, offsets: map<string, nat>) {
    forall f :: EndIn(past, f).ReadTo? ==> f in offsets
  }

  /** Every file but the first one is read from its beginning. */
  ghost predicate StartsOk(all: seq<Session>) {
    forall f :: all != [] && f != all[0].name ==> StartIn(all, f) == 0
  }

  ghost predicate WhereOk(files: map<string, string>, truncate: bool, w: Where) {
    && SessionsOk(files, w.past) && SessionOk(files, w.now)
    && w.now.to <= w.size && Boundary(files[w.now.name], w.size)
    && ResumesOk(All(w)) && StartsOk(All(w))
    && OffsetsOk(files, w.past, w.offsets) && (truncate ==> w.offsets == map[]) && |w.offsets| <= 2500
    && (!truncate && |files| <= MAX_TRACKED_FILES ==> AllRemembered(w.past, w.offsets))
  }

  ghost predicate LookOk(files: map<string, string>, look: Look) {
    && look.sizes.Keys == files.Keys && (look.newer.Newer? ==> look.newer.name in files)
    && forall f :: f in files ==> Boundary(files[f], look.sizes[f])
  }

  /** Files only grow, and their observed sizes end lines. */
  ghost predicate LooksGrow(files: map<string, string>, looks: seq<Look>) {
    && (forall i :: 0 <= i < |looks| ==> LookOk(files, looks[i]))
    && (forall i :: 0 <= i < |looks| - 1 ==> Grows(looks[i].sizes, looks[i + 1].sizes))
  }

  ghost predicate Grows(sizes: map<string, nat>, sizes': map<string, nat>) {
    forall f :: f in sizes ==> f in sizes' && sizes[f] <= sizes'[f]
  }

  /** Nothing was read beyond the sizes. */
  ghost predicate Bounded(w: Where, sizes: map<string, nat>) {
    && w.now.name in sizes && w.size <= sizes[w.now.name]
    && forall f :: f in sizes && EndIn(w.past, f).ReadTo? ==> EndIn(w.past, f).to <= sizes[f]
  }

  lemma {:induction false} ResumesAppend(past: seq<Session>, s: Session)
    ensures ResumesOk(past + [s]) <==> ResumesOk(past) && (EndIn(past, s.name).ReadTo? ==> s.from == EndIn(past, s.name).to || s.from == 0)
  {
    hide EndIn;
    assert (past + [s])[..|past|] == past;
  }

  /** Only the name and the start of the session going on matter. */
  lemma {:induction false} SameStart(past: seq<Session>, s: Session, s': Session)
    requires s'.name == s.name && s'.from == s.from
    ensures ResumesOk(past + [s']) <==> ResumesOk(past + [s])
    ensures StartsOk(past + [s']) <==> StartsOk(past + [s])
    ensures forall f :: Continuous(past + [s'], f) <==> Continuous(past + [s], f)
  {
    ResumesAppend(past, s);
    ResumesAppend(past, s');
    hide ResumesOk, EndIn, StartIn, Continuous;
    assert (past + [s'])[0].name == (past + [s])[0].name;
    forall f ensures StartIn(past + [s'], f) == StartIn(past + [s], f) && (Continuous(past + [s'], f) <==> Continuous(past + [s], f)) {
      SessionAppend(past, s, f);
      SessionAppend(past, s', f);
    }
  }

  lemma {:induction false} ReadMore(files: map<string, string>, s: Session, latest: nat)
    requires SessionOk(files, s) && s.to < latest <= |files[s.name]| && Boundary(files[s.name], latest)
    ensures var c := ChunkOf(files[s.name], s.to, latest);
      && c.at <= latest && SessionOk(files, s.(to := c.at, log := s.log + [c], handed := s.handed + (c.lines + [c.extra])))
  {
    ReadFacts(files[s.name], s.from, s.to, latest, s.log);
    hide Lines, Tail, CutLines, Texts, LinesOf, NextOffset, ChunkText;
  }

  lemma {:induction false} FollowKeeps(files: map<string, string>, truncate: bool, w: Where, latest: nat)
    requires WhereOk(files, truncate, w) && w.size <= latest && w.now.name in files && Boundary(files[w.now.name], latest)
    ensures WhereOk(files, truncate, Followed(files, w, latest))
  {
    if w.now.to < latest {
      ReadMore(files, w.now, latest);
    }
    hide SessionOk, SessionsOk, OffsetsOk, AllRemembered, ResumesOk, StartsOk, ChunkOf, Boundary;
    SameStart(w.past, w.now, Followed(files, w, latest).now);
  }

  lemma {:induction false} FollowedIs(files: map<string, string>, truncate: bool, w: Where, latest: nat)
    requires WhereOk(files, truncate, w) && w.size <= latest && w.now.name in files && Boundary(files[w.now.name], latest)
    ensures w.now.to <= latest <= |files[w.now.name]|
    ensures var (file, w') := (files[w.now.name], Followed(files, w, latest));
      && w' == Where(Session(w.now.name, w.now.from, w'.now.to, w'.now.log, w'.now.handed), latest, w.offsets, w.past)
      && w'.now.to == (if w.now.to == latest then latest else NextOffset(file, w.now.to, latest))
      && w'.now.log == (if w.now.to == latest then w.now.log else w.now.log + [ChunkOf(file, w.now.to, latest)])
      && w'.now.handed == Texts(w'.now.log)
  {
    FollowKeeps(files, truncate, w, latest);
    assert SessionOk(files, w.now) && SessionOk(files, Followed(files, w, latest).now);
    hide WhereOk, Lines, Tail, LinesOf, CutLines, Texts, NextOffset;
  }

  lemma {:induction false} Smaller(a: set<string>, b: set<string>)
    requires a <= b
    ensures |a| <= |b|
  {
    assert b == a + (b - a);
  }

  lemma {:induction false} RememberOk(files: map<string, string>, past: seq<Session>, offsets: map<string, nat>, s: Session)
    requires OffsetsOk(files, past, offsets) && s.name in files
    ensures OffsetsOk(files, past + [s], Remember(offsets, s.name, s.to))
    ensures |files| <= MAX_TRACKED_FILES && AllRemembered(past, offsets) ==>
      AllRemembered(past + [s], Remember(offsets, s.name, s.to))
  {
    forall f ensures EndIn(past + [s], f) == if s.name == f then ReadTo(s.to) else EndIn(past, f) {
      SessionAppend(past, s, f);
    }
    var more := offsets[s.name := s.to];
    Smaller(more.Keys, files.Keys);
    assert |more| == |more.Keys| && |files| == |files.Keys|;
    hide EndIn;
  }

  lemma {:induction false} StartsKeep(all: seq<Session>, next: Session)
    requires all != [] && StartsOk(all) && (EndIn(all, next.name).Unread? ==> next.from == 0)
    ensures StartsOk(all + [next])
  {
    hide EndIn, StartIn;
    assert (all + [next])[0] == all[0];
    forall f | f != all[0].name ensures StartIn(all + [next], f) == 0 {
      SessionAppend(all, next, f);
    }
  }

  /** Where the next session begins. */
  lemma {:induction false} ResumeFacts(files: map<string, string>, truncate: bool, w: Where, fileName: string)
    requires WhereOk(files, truncate, w) && w.now.to == w.size && fileName != w.now.name
    ensures var offsets := OffsetsAfter(truncate, w);
      var from := Resume(offsets, truncate, fileName);
      && OffsetsOk(files, All(w), offsets) && (truncate ==> offsets == map[]) && |offsets| <= 2500
      && (!truncate && |files| <= MAX_TRACKED_FILES ==> AllRemembered(All(w), offsets))
      && (EndIn(All(w), fileName).Unread? ==> from == 0)
      && (from != 0 ==> EndIn(w.past, fileName) == ReadTo(from))
      && (EndIn(All(w), fileName).ReadTo? ==> from == EndIn(All(w), fileName).to || from == 0)
  {
    RememberOk(files, w.past, w.offsets, w.now);
    SessionAppend(w.past, w.now, fileName);
    assert SessionOk(files, w.now);
    RememberFew(w.offsets, w.now.name, w.size);
    hide SessionOk, SessionsOk, ResumesOk, StartsOk, EndIn, AllRemembered, Remember, Boundary;
  }

  lemma {:induction false} RememberFew(offsets: map<string, nat>, name: string, size: nat)
    ensures |Remember(offsets, name, size)| <= 2500
  {
  }

  lemma {:induction false} AllOk(files: map<string, string>, w: Where)
    requires SessionsOk(files, w.past) && SessionOk(files, w.now)
    ensures SessionsOk(files, All(w))
  {
    hide SessionOk;
  }

  lemma {:induction false} EmptySession(files: map<string, string>, name: string, from: nat)
    requires name in files && Boundary(files[name], from)
    ensures SessionOk(files, Session(name, from, from, [], []))
  {
    assert files[name][from..from] == "";
  }

  lemma {:induction false} SwitchKeeps(files: map<string, string>, truncate: bool, w: Where, fileName: string, size: nat)
    requires WhereOk(files, truncate, w) && w.now.to == w.size && fileName != w.now.name
    requires fileName in files && Boundary(files[fileName], size)
    requires EndIn(w.past, fileName).ReadTo? ==> EndIn(w.past, fileName).to <= size
    ensures WhereOk(files, truncate, Switched(truncate, w, fileName, size))
  {
    var next := Switched(truncate, w, fileName, size);
    ResumeFacts(files, truncate, w, fileName);
    AllOk(files, w);
    if next.now.from != 0 {
      EndIsBoundary(files, w.past, fileName);
    }
    EmptySession(files, fileName, next.now.from);
    ResumesAppend(All(w), next.now);
    StartsKeep(All(w), next.now);
    hide SessionOk, SessionsOk, OffsetsOk, AllRemembered, ResumesOk, StartsOk, EndIn, Boundary, OffsetsAfter, Resume;
  }

  lemma {:induction false} BoundedSwitch(truncate: bool, w: Where, sizes: map<string, nat>, fileName: string)
    requires Bounded(w, sizes) && w.now.to <= w.size && fileName in sizes
    ensures Bounded(Switched(truncate, w, fileName, sizes[fileName]), sizes)
  {
    hide EndIn, OffsetsAfter, Resume;
    forall f | f in sizes && EndIn(All(w), f).ReadTo? ensures EndIn(All(w), f).to <= sizes[f] {
      SessionAppend(w.past, w.now, f);
    }
  }

  lemma {:induction false} BoundedFollow(files: map<string, string>, w: Where, sizes: map<string, nat>)
    requires Bounded(w, sizes)
    ensures Bounded(Followed(files, w, sizes[w.now.name]), sizes)
  {
    hide EndIn, ChunkOf;
  }

  lemma {:induction false} BoundedMeans(files: map<string, string>, w: Where, look: Look, f: string)
    requires LookOk(files, look) && Bounded(w, look.sizes) && f in files
    ensures f in look.sizes && Boundary(files[f], look.sizes[f])
    ensures EndIn(w.past, f).ReadTo? ==> EndIn(w.past, f).to <= look.sizes[f]
    ensures w.now.name in look.sizes && w.size <= look.sizes[w.now.name] && w.now.name in files
    ensures look.newer.Newer? ==> look.newer.name in files && look.newer.name in look.sizes
  {
    hide Boundary, EndIn;
  }

  /** One look keeps the reader in order and reads nothing beyond the sizes seen. */
  lemma {:induction false} TurnKeeps(files: map<string, string>, truncate: bool, w: Where, look: Look)
    requires WhereOk(files, truncate, w) && LookOk(files, look) && Bounded(w, look.sizes)
    ensures WhereOk(files, truncate, Turned(files, truncate, w, look)) && Bounded(Turned(files, truncate, w, look), look.sizes)
  {
    assert w.now.name in files && w.now.to <= w.size;
    hide WhereOk, LookOk, Bounded, Followed, Switched, Boundary, EndIn;
    BoundedMeans(files, w, look, w.now.name);
    if Switches(w, look) {
      var name, size := look.newer.name, look.sizes[look.newer.name];
      BoundedMeans(files, w, look, name);
      SwitchKeeps(files, truncate, w, name, size);
      BoundedSwitch(truncate, w, look.sizes, name);
      SwitchedIs(truncate, w, name, size);
      FollowKeeps(files, truncate, Switched(truncate, w, name, size), size);
      BoundedFollow(files, Switched(truncate, w, name, size), look.sizes);
    } else {
      FollowKeeps(files, truncate, w, look.sizes[w.now.name]);
      BoundedFollow(files, w, look.sizes);
    }
  }

  lemma {:induction false} SwitchedIs(truncate: bool, w: Where, fileName: string, size: nat)
    ensures var next := Switched(truncate, w, fileName, size);
      && next.now.name == fileName && next.size == size && next.past == All(w)
      && next.now == Session(fileName, next.now.from, next.now.from, [], [])
  {
    hide OffsetsAfter;
  }

  /**
   * After every look, one that switches included, the reader stands at the end the look shows for its file, or before a
   * line as long as a chunk, or it has read on.
   */
  lemma {:induction false} LookReads(files: map<string, string>, truncate: bool, w: Where, look: Look)
    requires WhereOk(files, truncate, w) && LookOk(files, look) && Bounded(w, look.sizes)
    ensures var w' := Turned(files, truncate, w, look);
      && w'.now.name in files && w'.now.name in look.sizes && w'.size == look.sizes[w'.now.name]
      && (|| w'.now.to == w'.size || LongLine(files[w'.now.name], w'.now.to, w'.size)
          || w'.now.to > if |w'.past| > |w.past| then w'.now.from else w.now.to)
  {
    hide WhereOk, LookOk, Bounded, Boundary, EndIn, LongLine, ChunkOf;
    StandsInFile(files, truncate, w);
    BoundedMeans(files, w, look, w.now.name);
    if Switches(w, look) {
      var name, size := look.newer.name, look.sizes[look.newer.name];
      BoundedMeans(files, w, look, name);
      SwitchKeeps(files, truncate, w, name, size);
      var next := Switched(truncate, w, name, size);
      StandsInFile(files, truncate, next);
      if next.now.to < size {
        FurtherChunk(files, next, size);
      }
    } else if w.now.to < look.sizes[w.now.name] {
      FurtherChunk(files, w, look.sizes[w.now.name]);
    }
  }

  /** The looks a run has made leave the reader in order, ready for the next one. */
  lemma {:induction false} RunKeeps(files: map<string, string>, truncate: bool, w: Where, looks: seq<Look>, i: nat)
    requires WhereOk(files, truncate, w) && LooksGrow(files, looks) && i <= |looks|
    requires looks != [] ==> Bounded(w, looks[0].sizes)
    ensures WhereOk(files, truncate, TurnedAll(files, truncate, w, looks[..i]))
    ensures i < |looks| ==> LookOk(files, looks[i]) && Bounded(TurnedAll(files, truncate, w, looks[..i]), looks[i].sizes)
    ensures 0 < i ==> Bounded(TurnedAll(files, truncate, w, looks[..i]), looks[i - 1].sizes)
  {
    hide WhereOk, LookOk, Bounded, Turned, Grows;
    if i > 0 {
      RunKeeps(files, truncate, w, looks, i - 1);
      TurnsMore(files, truncate, w, looks, i - 1);
      var before := TurnedAll(files, truncate, w, looks[..i - 1]);
      TurnKeeps(files, truncate, before, looks[i - 1]);
      if i < |looks| {
        BoundedLater(files, Turned(files, truncate, before, looks[i - 1]), looks[i - 1], looks[i]);
      }
    }
  }

  lemma {:induction false} BoundedLater(files: map<string, string>, w: Where, look: Look, look': Look)
    requires LookOk(files, look) && LookOk(files, look') && Grows(look.sizes, look'.sizes) && Bounded(w, look.sizes)
    ensures Bounded(w, look'.sizes)
  {
    assert look.sizes.Keys == look'.sizes.Keys;
    hide LookOk, EndIn;
  }

  /* ---- when a file is left ---- */

  /** Looks only add sessions, and a session is over only once it has read all the look that ends it sees. */
  lemma {:induction false} LeftAtEnd(files: map<string, string>, truncate: bool, w: Where, looks: seq<Look>, k: nat)
    ensures w.past <= TurnedAll(files, truncate, w, looks).past
    ensures |w.past| <= k < |TurnedAll(files, truncate, w, looks).past| ==>
      exists i :: 0 <= i < |looks| && EndsAt(TurnedAll(files, truncate, w, looks).past[k], looks[i])
  {
    if looks != [] {
      var n := |looks| - 1;
      LeftAtEnd(files, truncate, w, looks[..n], k);
      var before := TurnedAll(files, truncate, w, looks[..n]);
      PastAfter(files, truncate, before, looks[n]);
      hide Turned, EndsAt;
      if |w.past| <= k < |before.past| {
        var i :| 0 <= i < n && EndsAt(before.past[k], looks[..n][i]);
        assert looks[i] == looks[..n][i];
      }
    }
  }

  /** The session reached the size the look shows, which also shows a newer file. */
  predicate EndsAt(s: Session, look: Look) {
    s.name in look.sizes && s.to == look.sizes[s.name] && look.newer.Newer? && look.newer.name != s.name
  }

  lemma {:induction false} PastAfter(files: map<string, string>, truncate: bool, w: Where, look: Look)
    ensures var w' := Turned(files, truncate, w, look);
      if Switches(w, look) then w'.past == w.past + [w.now] && EndsAt(w.now, look)
      else w'.past == w.past && w'.now.name == w.now.name && w'.now.from == w.now.from
  {
    hide ChunkOf, OffsetsAfter, Resume;
  }

  /** A reader with a line as long as a chunk ahead never passes it and never leaves the file again. */
  lemma {:induction false} NeverLeaves(files: map<string, string>, truncate: bool, w: Where, looks: seq<Look>, o: nat, n: nat)
    requires WhereOk(files, truncate, w) && LooksGrow(files, looks) && n <= |looks|
    requires looks != [] ==> Bounded(w, looks[0].sizes) && LongLine(files[w.now.name], o, looks[0].sizes[w.now.name])
    requires w.now.to <= o
    ensures var w' := TurnedAll(files, truncate, w, looks[..n]);
      w'.past == w.past && w'.now.name == w.now.name && w'.now.to <= o
  {
    hide TurnedAll, LooksGrow, LongLine, WhereOk, Bounded, LookOk, Turned;
    StandsInFile(files, truncate, w);
    TurnsNone(files, truncate, w, looks);
    if n > 0 {
      NeverLeaves(files, truncate, w, looks, o, n - 1);
      RunKeeps(files, truncate, w, looks, n - 1);
      TurnsMore(files, truncate, w, looks, n - 1);
      RunKeeps(files, truncate, w, looks, 0);
      BoundedMeans(files, w, looks[0], w.now.name);
      LongerStill(files, looks, w.now.name, o, n - 1);
      StaysBefore(files, truncate, TurnedAll(files, truncate, w, looks[..n - 1]), looks[n - 1], o);
    }
  }

  lemma {:induction false} LongerStill(files: map<string, string>, looks: seq<Look>, f: string, o: nat, i: nat)
    requires LooksGrow(files, looks) && i < |looks| && f in files && f in looks[0].sizes && LongLine(files[f], o, looks[0].sizes[f])
    ensures f in looks[i].sizes && LongLine(files[f], o, looks[i].sizes[f])
  {
    assert LookOk(files, looks[i]);
    if i > 0 {
      LongerStill(files, looks, f, o, i - 1);
      assert Grows(looks[i - 1].sizes, looks[i].sizes);
    }
  }

  lemma {:induction false} StaysBefore(files: map<string, string>, truncate: bool, w: Where, look: Look, o: nat)
    requires WhereOk(files, truncate, w) && LookOk(files, look) && Bounded(w, look.sizes)
    requires w.now.to <= o && LongLine(files[w.now.name], o, look.sizes[w.now.name])
    ensures var w' := Turned(files, truncate, w, look);
      w'.past == w.past && w'.now.name == w.now.name && w'.now.to <= o
  {
    var file, latest := files[w.now.name], look.sizes[w.now.name];
    NotBeyond(file, w.now.to, latest, o);
    hide SessionsOk, SessionOk, ResumesOk, StartsOk, OffsetsOk, AllRemembered, Boundary, EndIn, LookOk, NextOffset;
  }

  /** The looks keep showing the file at size `size`, and a newer file. */
  ghost predicate Offered(looks: seq<Look>, f: string, size: nat) {
    forall i :: 0 <= i < |looks| ==>
      && f in looks[i].sizes && looks[i].sizes[f] == size
      && looks[i].newer.Newer? && looks[i].newer.name != f && looks[i].newer.name in looks[i].sizes
  }

  /** The reader has left the file, read up to `size`; or else it stands in it, `n` looks on, further or at the end. */
  ghost predicate LeftOrFurther(w: Where, w': Where, size: nat, n: nat) {
    if |w'.past| > |w.past| then w.past <= w'.past && w'.past[|w.past|].name == w.now.name && w'.past[|w.past|].to == size
    else
      && w'.past == w.past && w'.now.name == w.now.name && w.now.to <= w'.now.to <= size
      && (if n == 0 then w' == w else w'.size == size) && (w'.now.to == size || w'.now.to >= w.now.to + n)
      && n <= size - w.now.to
  }

  /** Without such a line ahead every look makes headway, and the file is left once it is read. */
  lemma {:induction false} Leaves(files: map<string, string>, truncate: bool, w: Where, looks: seq<Look>, size: nat, n: nat)
    requires WhereOk(files, truncate, w) && LooksGrow(files, looks) && n <= |looks| && w.size <= size
    requires looks != [] ==> Bounded(w, looks[0].sizes)
    requires Offered(looks, w.now.name, size) && LinesFit(files[w.now.name], w.now.to, size)
    requires looks != []
    ensures LeftOrFurther(w, TurnedAll(files, truncate, w, looks[..n]), size, n)
  {
    hide *;
    if n == 0 {
      TurnsNone(files, truncate, w, looks);
      StandsInFile(files, truncate, w);
      NoHeadwayYet(w, size);
    } else {
      Leaves(files, truncate, w, looks, size, n - 1);
      RunKeeps(files, truncate, w, looks, n - 1);
      TurnsMore(files, truncate, w, looks, n - 1);
      OfferedAt(looks, w.now.name, size, n - 1);
      Headway(files, truncate, w, TurnedAll(files, truncate, w, looks[..n - 1]), looks[n - 1], size, n - 1);
    }
  }

  lemma {:induction false} NoHeadwayYet(w: Where, size: nat)
    requires w.now.to <= size
    ensures LeftOrFurther(w, w, size, 0)
  {
  }

  lemma {:induction false} OfferedAt(looks: seq<Look>, f: string, size: nat, i: nat)
    requires Offered(looks, f, size) && i < |looks|
    ensures Offered([looks[i]], f, size)
  {
  }

  lemma {:induction false} Headway(files: map<string, string>, truncate: bool, w: Where, v: Where, look: Look, size: nat, n: nat)
    requires WhereOk(files, truncate, w) && WhereOk(files, truncate, v) && LookOk(files, look) && w.size <= size
    requires LeftOrFurther(w, v, size, n) && Offered([look], w.now.name, size) && LinesFit(files[w.now.name], w.now.to, size)
    ensures LeftOrFurther(w, Turned(files, truncate, v, look), size, n + 1)
  {
    PastAfter(files, truncate, v, look);
    assert [look][0] == look;
    if |v.past| == |w.past| {
      assert Boundary(files[w.now.name], size);
      if v.now.to < size {
        FurtherChunk(files, v, size);
        assert !LongLine(files[v.now.name], v.now.to, size);
      }
    }
    hide WhereOk, LookOk, LinesFit, LongLine, ChunkOf;
  }

  lemma {:induction false} FurtherChunk(files: map<string, string>, v: Where, size: nat)
    requires v.now.name in files && v.now.to < size && Boundary(files[v.now.name], v.now.to) && Boundary(files[v.now.name], size)
    ensures var v' := Followed(files, v, size);
      v.now.to <= v'.now.to <= size && (v'.now.to > v.now.to || LongLine(files[v.now.name], v.now.to, size))
  {
    StopsAtLongLines(files[v.now.name], v.now.to, size);
    hide NextOffset, LongLine, Boundary, Lines, Tail;
  }

  /**
   * A file that has stopped growing while a newer one exists is left, after enough looks, if and only if
   * no line from where the reader stands is as long as a chunk; it is then left at its end.
   */
  lemma {:induction false} LeavesIff(files: map<string, string>, truncate: bool, w: Where, looks: seq<Look>, size: nat)
    requires WhereOk(files, truncate, w) && LooksGrow(files, looks) && w.size <= size && |looks| > size - w.now.to
    requires looks != [] ==> Bounded(w, looks[0].sizes)
    requires Offered(looks, w.now.name, size)
    ensures var w' := TurnedAll(files, truncate, w, looks);
      && (|w'.past| > |w.past| <==> LinesFit(files[w.now.name], w.now.to, size))
      && (|w'.past| > |w.past| ==> w'.past[|w.past|].name == w.now.name && w'.past[|w.past|].to == size)
  {
    assert looks[..|looks|] == looks;
    assert w.now.to <= w.size;
    if LinesFit(files[w.now.name], w.now.to, size) {
      Leaves(files, truncate, w, looks, size, |looks|);
    } else {
      var o: nat :| w.now.to <= o && LongLine(files[w.now.name], o, size);
      hide LongLine, WhereOk, TurnedAll;
      NeverLeaves(files, truncate, w, looks, o, |looks|);
    }
  }

  /* ---- which files are read exactly once ---- */

  /** The look makes the reader enter file `f` from its beginning although it has read beyond it before. */
  predicate Reenters(truncate: bool, w: Where, look: Look, f: string) {
    && Switches(w, look) && look.newer.name == f
    && EndIn(All(w), f).ReadTo? && Resume(OffsetsAfter(truncate, w), truncate, f) != EndIn(All(w), f).to
  }

  /** Only a file read beyond its beginning and then forgotten, or truncated on rotation, is entered again. */
  lemma {:induction false} ReentersIff(files: map<string, string>, truncate: bool, w: Where, look: Look, f: string)
    requires WhereOk(files, truncate, w)
    ensures Reenters(truncate, w, look, f) <==>
      && Switches(w, look) && look.newer.name == f
      && EndIn(All(w), f).ReadTo? && EndIn(All(w), f).to > 0 && f !in OffsetsAfter(truncate, w)
  {
    if Switches(w, look) && look.newer.name == f {
      ResumeFacts(files, truncate, w, f);
    }
    hide WhereOk, EndIn, OffsetsAfter;
  }

  lemma {:induction false} TurnContinuous(files: map<string, string>, truncate: bool, w: Where, look: Look, f: string)
    ensures Continuous(All(Turned(files, truncate, w, look)), f) <==> Continuous(All(w), f) && !Reenters(truncate, w, look, f)
  {
    var w' := Turned(files, truncate, w, look);
    PastAfter(files, truncate, w, look);
    if Switches(w, look) {
      var next := Switched(truncate, w, look.newer.name, look.sizes[look.newer.name]).now;
      assert w'.now.name == next.name && w'.now.from == next.from;
      SameStart(All(w), next, w'.now);
      SessionAppend(All(w), next, f);
    } else {
      SameStart(w.past, w.now, w'.now);
    }
    hide Turned, Continuous, EndIn, OffsetsAfter, ResumesOk, StartsOk;
  }

  /** The look at which file `f` is entered again. */
  ghost predicate ReentersAt(files: map<string, string>, truncate: bool, w: Where, looks: seq<Look>, f: string, i: nat)
    requires i < |looks|
  {
    Reenters(truncate, TurnedAll(files, truncate, w, looks[..i]), looks[i], f)
  }

  lemma {:induction false} ReentersAtIs(files: map<string, string>, truncate: bool, w: Where, looks: seq<Look>, f: string, i: nat)
    requires i < |looks|
    ensures ReentersAt(files, truncate, w, looks, f, i) <==> Reenters(truncate, TurnedAll(files, truncate, w, looks[..i]), looks[i], f)
  {
  }

  lemma {:induction false} RunContinuous(files: map<string, string>, truncate: bool, w: Where, looks: seq<Look>, f: string, n: nat)
    requires n <= |looks|
    ensures Continuous(All(TurnedAll(files, truncate, w, looks[..n])), f) <==>
      Continuous(All(w), f) && forall i :: 0 <= i < n ==> !ReentersAt(files, truncate, w, looks, f, i)
  {
    hide *;
    TurnsNone(files, truncate, w, looks);
    if n > 0 {
      RunContinuous(files, truncate, w, looks, f, n - 1);
      TurnsMore(files, truncate, w, looks, n - 1);
      TurnContinuous(files, truncate, TurnedAll(files, truncate, w, looks[..n - 1]), looks[n - 1], f);
      ReentersAtIs(files, truncate, w, looks, f, n - 1);
    }
  }

  /**
   * After any run, the complete lines of a file were handed out exactly once and in order, from its
   * beginning (the first file: from where following began) to where it was read to, if and only if the
   * reader never entered the file again after forgetting how far it had read.
   */
  lemma {:induction false} EveryFileOnceIff(files: map<string, string>, truncate: bool, w: Where, looks: seq<Look>, f: string)
    requires WhereOk(files, truncate, w) && w.past == [] && LooksGrow(files, looks)
    requires looks != [] ==> Bounded(w, looks[0].sizes)
    ensures var all := All(TurnedAll(files, truncate, w, looks));
      EndIn(all, f).ReadTo? ==>
        && (ReadOnce(files, all, f) <==> forall i :: 0 <= i < |looks| ==> !ReentersAt(files, truncate, w, looks, f, i))
        && (f != w.now.name ==> StartIn(all, f) == 0)
  {
    assert looks[..|looks|] == looks;
    RunKeeps(files, truncate, w, looks, |looks|);
    RunContinuous(files, truncate, w, looks, f, |looks|);
    SessionAppend([], w.now, f);
    assert All(w) == [] + [w.now];
    var end := TurnedAll(files, truncate, w, looks);
    FirstStays(files, truncate, w, looks);
    assert SessionsOk(files, end.past) && SessionOk(files, end.now) && ResumesOk(All(end)) && StartsOk(All(end));
    hide SessionOk, SessionsOk, ResumesOk, TurnedAll, LooksGrow, LookOk, Bounded, EndIn, StartIn, Continuous, Reenters, ReadOnce;
    AllOk(files, end);
    if EndIn(All(end), f).ReadTo? {
      OnceIff(files, All(end), f);
    }
  }

  lemma {:induction false} FirstStays(files: map<string, string>, truncate: bool, w: Where, looks: seq<Look>)
    ensures All(TurnedAll(files, truncate, w, looks))[0].name == All(w)[0].name
  {
    if looks != [] {
      FirstStays(files, truncate, w, looks[..|looks| - 1]);
      PastAfter(files, truncate, TurnedAll(files, truncate, w, looks[..|looks| - 1]), looks[|looks| - 1]);
      hide Turned;
    }
  }

  /** Without truncation and with room for all files, none is entered again. */
  lemma {:induction false} RoomForAll(files: map<string, string>, truncate: bool, w: Where, looks: seq<Look>, f: string, i: nat)
    requires WhereOk(files, truncate, w) && LooksGrow(files, looks) && i < |looks| && Bounded(w, looks[0].sizes)
    requires !truncate && |files| <= 2500
    ensures !ReentersAt(files, truncate, w, looks, f, i)
  {
    RunKeeps(files, truncate, w, looks, i);
    var v := TurnedAll(files, truncate, w, looks[..i]);
    if Switches(v, looks[i]) && looks[i].newer.name == f {
      ReentersIff(files, truncate, v, looks[i], f);
      ResumeFacts(files, truncate, v, f);
    }
    hide WhereOk, EndIn, OffsetsAfter, Resume, TurnedAll, Switches;
  }

  class RotatingLog {
    /** Everything each log file will ever hold. */
    const files: map<string, string>
    const truncateOnRotation: bool
    var name: string
    var reader: RemoteLog
    var fileOffsets: map<string, nat>
    ghost var past: seq<Session>

    ghost function View(): Where
      reads this, reader
    {
      Where(Session(name, reader.start, reader.offset, reader.log, reader.handed), reader.size, fileOffsets, past)
    }

    /** Between two looks, with all strings handed out. */
    ghost predicate Valid()
      reads this, reader
    {
      && name in files && reader.file == files[name] && reader.Valid() && reader.linesRead == reader.numOfLines
      && WhereOk(files, truncateOnRotation, View())
    }

    constructor (files: map<string, string>, truncateOnRotation: bool, name: string, observed: nat)
      requires name in files && Boundary(files[name], observed)
      ensures Valid() && this.files == files && this.truncateOnRotation == truncateOnRotation && fresh(reader)
      ensures View() == Where(Session(name, observed, observed, [], []), observed, map[], [])
    {
      this.files, this.truncateOnRotation, this.name := files, truncateOnRotation, name;
      fileOffsets, past := map[], [];
      reader := new RemoteLog(files[name], observed, observed);
      new;
      EmptySession(files, name, observed);
      assert All(View())[..0] == [];
    }

    /** Keep following the current file. */
    method Poll(latestSize: nat)
      requires Valid() && reader.size <= latestSize && Boundary(files[name], latestSize)
      modifies reader
      ensures Valid() && View() == Followed(files, old(View()), latestSize)
    {
      hide WhereOk, Boundary, Followed, RemoteLog.Valid, NextOffset, ChunkOf, Texts;
      FollowKeeps(files, truncateOnRotation, View(), latestSize);
      FollowedIs(files, truncateOnRotation, View(), latestSize);
      reader.Poll(latestSize);
    }

    /** Remember how far the current file was read. */
    method Leave()
      modifies this`fileOffsets
      ensures fileOffsets == OffsetsAfter(truncateOnRotation, old(View()))
    {
      if !truncateOnRotation {
        fileOffsets := fileOffsets[name := reader.size];
        if |fileOffsets| > MAX_TRACKED_FILES {
          fileOffsets := map[];
        }
      }
    }

    /** Switch to a newer file once the current one is read to its end. */
    method Switch(fileName: string, latestSize: nat)
      requires Valid() && reader.offset == reader.size
      requires fileName != name && fileName in files && Boundary(files[fileName], latestSize)
      requires EndIn(past, fileName).ReadTo? ==> EndIn(past, fileName).to <= latestSize
      modifies this
      ensures Valid() && fresh(reader) && View() == Switched(truncateOnRotation, old(View()), fileName, latestSize)
    {
      hide WhereOk, Lines, CutLines, Texts, LinesOf, EndIn, Boundary, OffsetsAfter, RemoteLog.Valid;
      ghost var w := View();
      SwitchKeeps(files, truncateOnRotation, w, fileName, latestSize);
      StandsInFile(files, truncateOnRotation, Switched(truncateOnRotation, w, fileName, latestSize));
      Leave();
      past := All(w);
      name := fileName;
      var from := if fileName in fileOffsets && !truncateOnRotation then fileOffsets[fileName] else 0;
      reader := new RemoteLog(files[fileName], from, latestSize);
    }

    /** One look at the log directory: follow the current file, or switch once it is read to its end. */
    method Turn(look: Look)
      requires Valid() && LookOk(files, look) && Bounded(View(), look.sizes)
      modifies this, reader
      ensures Valid() && (reader == old(reader) || fresh(reader))
      ensures View() == Turned(files, truncateOnRotation, old(View()), look)
    {
      hide Lines, CutLines, Texts, LinesOf, EndIn, WhereOk, Boundary, LookOk, Bounded, Switched, Followed;
      BoundedMeans(files, View(), look, name);
      var latestSize := look.sizes[name];
      if reader.size == latestSize && reader.offset == reader.size {
        if look.newer.Newer? && look.newer.name != name {
          var newer := look.newer.name;
          BoundedMeans(files, View(), look, newer);
          SwitchedIs(truncateOnRotation, View(), newer, look.sizes[newer]);
          Switch(newer, look.sizes[newer]);
          Poll(look.sizes[newer]);
        } else {
          NothingNew(files, View());
        }
      } else {
        Poll(latestSize);
      }
    }

    /** Any run of looks at a directory whose files only grow. */
    method Run(looks: seq<Look>)
      requires Valid() && LooksGrow(files, looks)
      requires looks != [] ==> Bounded(View(), looks[0].sizes)
      modifies this, reader
      ensures Valid()
      ensures View() == TurnedAll(files, truncateOnRotation, old(View()), looks)
    {
      hide *;
      ghost var w := View();
      ValidMeans();
      TurnsNone(files, truncateOnRotation, w, looks);
      for i := 0 to |looks|
        invariant Valid() && (reader == old(reader) || fresh(reader))
        invariant View() == TurnedAll(files, truncateOnRotation, w, looks[..i])
      {
        RunKeeps(files, truncateOnRotation, w, looks, i);
        TurnsMore(files, truncateOnRotation, w, looks, i);
        Turn(looks[i]);
      }
      assert looks[..|looks|] == looks;
    }

    lemma {:induction false} ValidMeans()
      requires Valid()
      ensures WhereOk(files, truncateOnRotation, View())
    {
      hide WhereOk;
    }
  }

  lemma {:induction false} StandsInFile(files: map<string, string>, truncate: bool, w: Where)
    requires WhereOk(files, truncate, w)
    ensures w.now.name in files && w.now.from <= w.now.to <= w.size <= |files[w.now.name]|
    ensures Boundary(files[w.now.name], w.now.from) && Boundary(files[w.now.name], w.now.to) && Boundary(files[w.now.name], w.size)
  {
    hide SessionsOk, ResumesOk, StartsOk, OffsetsOk, AllRemembered, Lines, LinesOf, CutLines, Texts;
  }

  lemma {:induction false} NothingNew(files: map<string, string>, w: Where)
    requires w.now.to == w.size
    ensures Followed(files, w, w.size) == w
  {
  }
}
