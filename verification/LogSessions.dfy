/** The sessions of the remote log reader, each a stretch of one file, and what they hand out together. */
module LogSessions {
  import opened LogReader

  /** One stretch of reading one file, with what the matcher was given in it. */
  datatype Session = Session(name: string, from: nat, to: nat, log: seq<Chunk>, handed: seq<string>)

  ghost predicate SessionOk(files: map<string, string>, s: Session) {
    && s.name in files && s.from <= s.to <= |files[s.name]|
    && Boundary(files[s.name], s.from) && Boundary(files[s.name], s.to)
    && LinesOf(s.log) == Lines(files[s.name][s.from..s.to]) && CutLines(files[s.name], s.log)
    && s.handed == Texts(s.log)
  }

  ghost predicate SessionsOk(files: map<string, string>, past: seq<Session>) {
    forall i :: 0 <= i < |past| ==> SessionOk(files, past[i])
  }

  datatype Mark = Unread | ReadTo(to: nat)

  /** Where the last session of a file ended. */
  function EndIn(past: seq<Session>, f: string): Mark {
    if past == [] then Unread
    else if past[|past| - 1].name == f then ReadTo(past[|past| - 1].to)
    else EndIn(past[..|past| - 1], f)
  }

  /** Where the first session of a file began. */
  function StartIn(past: seq<Session>, f: string): nat {
    if past == [] then 0
    else if EndIn(past[..|past| - 1], f).Unread? && past[|past| - 1].name == f then past[|past| - 1].from
    else StartIn(past[..|past| - 1], f)
  }

  /** All sessions of the file but the first began where the previous one ended. */
  ghost predicate Continuous(past: seq<Session>, f: string) {
    past == [] ||
    var (before, s) := (past[..|past| - 1], past[|past| - 1]);
    Continuous(before, f) && (s.name == f && EndIn(before, f).ReadTo? ==> s.from == EndIn(before, f).to)
  }

  /** The complete lines of one file in the order they were handed out. */
  function LinesIn(past: seq<Session>, f: string): seq<string> {
    if past == [] then []
    else LinesIn(past[..|past| - 1], f) + if past[|past| - 1].name == f then LinesOf(past[|past| - 1].log) else []
  }

  lemma {:induction false} EndIsBoundary(files: map<string, string>, past: seq<Session>, f: string)
    requires SessionsOk(files, past) && EndIn(past, f).ReadTo?
    ensures f in files && EndIn(past, f).to <= |files[f]| && Boundary(files[f], EndIn(past, f).to)
  {
    hide Boundary, LinesOf, Lines, CutLines;
    var k := |past| - 1;
    assert SessionOk(files, past[k]);
    if past[k].name != f {
      EndIsBoundary(files, past[..k], f);
    }
  }

  /** Read without gaps, a file's complete lines were handed out exactly once and in order. */
  lemma {:induction false} EachLineOnce(files: map<string, string>, past: seq<Session>, f: string)
    requires SessionsOk(files, past) && Continuous(past, f) && EndIn(past, f).ReadTo?
    ensures f in files && StartIn(past, f) <= EndIn(past, f).to <= |files[f]|
    ensures LinesIn(past, f) == Lines(files[f][StartIn(past, f)..EndIn(past, f).to])
  {
    var k := |past| - 1;
    var before, s := past[..k], past[k];
    assert SessionOk(files, s);
    hide LinesOf, Lines, CutLines;
    if s.name != f {
      EachLineOnce(files, before, f);
    } else if EndIn(before, f).Unread? {
      NothingRead(before, f);
    } else {
      EachLineOnce(files, before, f);
      LinesExtend(files[f], StartIn(before, f), s.from, s.to);
    }
  }

  lemma {:induction false} NothingRead(past: seq<Session>, f: string)
    requires EndIn(past, f).Unread?
    ensures LinesIn(past, f) == [] && Continuous(past, f)
  {
    if past != [] {
      NothingRead(past[..|past| - 1], f);
    }
  }

  lemma {:induction false} SessionAppend(past: seq<Session>, s: Session, f: string)
    ensures EndIn(past + [s], f) == if s.name == f then ReadTo(s.to) else EndIn(past, f)
    ensures StartIn(past + [s], f) == if EndIn(past, f).Unread? && s.name == f then s.from else StartIn(past, f)
    ensures Continuous(past + [s], f) <==> Continuous(past, f) && (s.name == f && EndIn(past, f).ReadTo? ==> s.from == EndIn(past, f).to)
    ensures LinesIn(past + [s], f) == if s.name == f then LinesIn(past, f) + LinesOf(s.log) else LinesIn(past, f)
  {
    hide LinesOf;
    assert (past + [s])[..|past|] == past;
  }

  /** A session of a file read before begins at the file's beginning or where the previous one ended. */
  ghost predicate ResumesOk(past: seq<Session>) {
    past == [] ||
    var (before, s) := (past[..|past| - 1], past[|past| - 1]);
    ResumesOk(before) && (EndIn(before, s.name).ReadTo? ==> s.from == EndIn(before, s.name).to || s.from == 0)
  }

  /** The number of complete lines before a position. */
  function LinesBefore(file: string, o: nat): nat
    requires o <= |file|
  {
    |Lines(file[..o])|
  }

  lemma {:induction false} LinesBetween(file: string, a: nat, b: nat)
    requires a <= b <= |file| && Boundary(file, a)
    ensures |Lines(file[a..b])| == LinesBefore(file, b) - LinesBefore(file, a)
  {
    LinesExtend(file, 0, a, b);
    hide Lines, Boundary;
    assert file[0..b] == file[..b] && file[0..a] == file[..a];
  }

  lemma {:induction false} SomeLine(file: string, o: nat)
    requires Boundary(file, o)
    ensures LinesBefore(file, o) > 0 <==> o > 0
  {
    if o > 0 {
      assert file[..o][|file[..o]| - 1] == '\n';
    }
  }

  /** How many lines of the file were handed out again. */
  function Excess(files: map<string, string>, past: seq<Session>, f: string): nat {
    if past == [] then 0
    else
      var (before, s) := (past[..|past| - 1], past[|past| - 1]);
      var end := EndIn(before, f);
      Excess(files, before, f) +
      if s.name == f && end.ReadTo? && end.to != s.from && f in files && end.to <= |files[f]| then LinesBefore(files[f], end.to) else 0
  }

  lemma {:induction false} StartIsBoundary(files: map<string, string>, past: seq<Session>, f: string)
    requires SessionsOk(files, past) && EndIn(past, f).ReadTo?
    ensures f in files && Boundary(files[f], StartIn(past, f))
  {
    hide Boundary, LinesOf, Lines, CutLines;
    var k := |past| - 1;
    assert SessionOk(files, past[k]);
    if EndIn(past[..k], f).ReadTo? {
      StartIsBoundary(files, past[..k], f);
    }
  }

  lemma {:induction false} SessionLines(files: map<string, string>, s: Session)
    requires SessionOk(files, s)
    ensures s.name in files && s.from <= s.to <= |files[s.name]|
    ensures |LinesOf(s.log)| == LinesBefore(files[s.name], s.to) - LinesBefore(files[s.name], s.from)
  {
    LinesBetween(files[s.name], s.from, s.to);
    hide Lines, LinesOf, CutLines, Texts, Boundary, LinesBefore;
  }

  /** All sessions of a file together hand out its lines from the first start to the last end, and the excess. */
  lemma {:induction false} LinesCounted(files: map<string, string>, past: seq<Session>, f: string)
    requires SessionsOk(files, past) && ResumesOk(past) && EndIn(past, f).ReadTo?
    ensures f in files && StartIn(past, f) <= |files[f]| && EndIn(past, f).to <= |files[f]|
    ensures |LinesIn(past, f)| == LinesBefore(files[f], EndIn(past, f).to) - LinesBefore(files[f], StartIn(past, f)) + Excess(files, past, f)
  {
    var k := |past| - 1;
    var before, s := past[..k], past[k];
    assert SessionOk(files, s);
    EndIsBoundary(files, past, f);
    StartIsBoundary(files, past, f);
    if s.name != f {
      LinesCounted(files, before, f);
    } else {
      SessionLines(files, s);
      if EndIn(before, f).Unread? {
        NothingRead(before, f);
        NoExcess(files, before, f);
      } else {
        LinesCounted(files, before, f);
        SomeLine(files[f], 0);
      }
    }
    hide Lines, LinesOf, CutLines, Texts, Boundary, LinesBefore, SessionOk, SessionsOk;
  }

  lemma {:induction false} NoExcess(files: map<string, string>, past: seq<Session>, f: string)
    requires EndIn(past, f).Unread?
    ensures Excess(files, past, f) == 0
  {
    if past != [] {
      NoExcess(files, past[..|past| - 1], f);
    }
  }

  /** Nothing is handed out again exactly when the sessions of the file leave no gap. */
  lemma {:induction false} ExcessIff(files: map<string, string>, past: seq<Session>, f: string)
    requires SessionsOk(files, past) && ResumesOk(past)
    ensures Excess(files, past, f) == 0 <==> Continuous(past, f)
  {
    if past != [] {
      var before, s := past[..|past| - 1], past[|past| - 1];
      ExcessIff(files, before, f);
      if s.name == f && EndIn(before, f).ReadTo? {
        EndIsBoundary(files, before, f);
        SomeLine(files[f], EndIn(before, f).to);
      }
      hide LinesBefore, Boundary, SessionsOk;
    }
  }

  /** The complete lines of the file, from where it was first entered to where it was last left, each once and in order. */
  ghost predicate ReadOnce(files: map<string, string>, past: seq<Session>, f: string)
    requires EndIn(past, f).ReadTo?
  {
    && f in files && StartIn(past, f) <= EndIn(past, f).to <= |files[f]|
    && LinesIn(past, f) == Lines(files[f][StartIn(past, f)..EndIn(past, f).to])
  }

  /** The lines of a file were handed out exactly once if and only if every session resumed where the last one ended. */
  lemma {:induction false} OnceIff(files: map<string, string>, past: seq<Session>, f: string)
    requires SessionsOk(files, past) && ResumesOk(past) && EndIn(past, f).ReadTo?
    ensures ReadOnce(files, past, f) <==> Continuous(past, f)
  {
    hide *;
    LinesCounted(files, past, f);
    ExcessIff(files, past, f);
    StartIsBoundary(files, past, f);
    if Continuous(past, f) {
      EachLineOnce(files, past, f);
      OnceIntro(files, past, f);
    } else if ReadOnce(files, past, f) {
      OnceMeans(files, past, f);
      LinesBetween(files[f], StartIn(past, f), EndIn(past, f).to);
    }
  }

  lemma {:induction false} OnceIntro(files: map<string, string>, past: seq<Session>, f: string)
    requires EndIn(past, f).ReadTo? && f in files && StartIn(past, f) <= EndIn(past, f).to <= |files[f]|
    ensures LinesIn(past, f) == Lines(files[f][StartIn(past, f)..EndIn(past, f).to]) ==> ReadOnce(files, past, f)
  {
    hide EndIn, StartIn, LinesIn, Lines;
  }

  lemma {:induction false} OnceMeans(files: map<string, string>, past: seq<Session>, f: string)
    requires EndIn(past, f).ReadTo? && ReadOnce(files, past, f)
    ensures f in files && StartIn(past, f) <= EndIn(past, f).to <= |files[f]|
    ensures LinesIn(past, f) == Lines(files[f][StartIn(past, f)..EndIn(past, f).to])
  {
    hide EndIn, StartIn, LinesIn, Lines;
  }
}
