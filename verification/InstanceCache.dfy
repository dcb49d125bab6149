/**
 * Instance-level metrics are fetched once and served to all databases of the instance. Rows are
 * shared by reference and every sender writes its own columns into the rows it sends, so a served
 * row must never be a cached one.
 */
module InstanceCache {
  import opened Metrics

  type Cells = map<string, Value>

  /** The columns the sinks want added, empty when switched off. */
  datatype Options = Options(realDbnameField: string, systemIdentifierField: string)

  datatype SourceInfo = SourceInfo(name: string, realDbname: string, systemIdentifier: string)

  /** AddSysinfoToMeasurements on one row. */
  function Enrich(o: Options, s: SourceInfo, cells: Cells): Cells {
    var named := if o.realDbnameField != "" && s.realDbname != "" then cells[o.realDbnameField := Text(s.realDbname)] else cells;
    if o.systemIdentifierField != "" && s.systemIdentifier != "" then named[o.systemIdentifierField := Text(s.systemIdentifier)] else named
  }

  /** The row says which database and instance it came from. */
  ghost predicate Carries(o: Options, s: SourceInfo, cells: Cells) {
    && (o.realDbnameField != "" && s.realDbname != "" && o.realDbnameField != o.systemIdentifierField ==>
        o.realDbnameField in cells && cells[o.realDbnameField] == Text(s.realDbname))
    && (o.systemIdentifierField != "" && s.systemIdentifier != "" ==>
        o.systemIdentifierField in cells && cells[o.systemIdentifierField] == Text(s.systemIdentifier))
  }

  /** Enriching adds the sender's own columns and touches no other. */
  lemma {:induction false} EnrichCarries(o: Options, s: SourceInfo, cells: Cells)
    ensures Carries(o, s, Enrich(o, s, cells))
    ensures Enrich(o, s, cells) - {o.realDbnameField, o.systemIdentifierField} == cells - {o.realDbnameField, o.systemIdentifierField}
  {
  }

  function Touched(cells: Cells, ns: int): Cells {
    cells[EPOCH_COLUMN := Int64(ns)]
  }

  function TouchedAll(rows: seq<Cells>, ns: int): (r: seq<Cells>)
    ensures |r| == |rows| && forall i :: 0 <= i < |r| ==> r[i] == Touched(rows[i], ns)
  {
    seq(|rows|, i requires 0 <= i < |rows| => Touched(rows[i], ns))
  }

  /** The epoch column is there and usable, or not there at all. */
  predicate WellTyped(first: Cells) {
    HasEpoch(first) || EPOCH_COLUMN !in first
  }

  /** What happened to a cache entry: the rows put, when, and when an unusable epoch was first asked for. */
  datatype Entry = Entry(fetched: seq<Cells>, putAt: int, asked: Asked)

  datatype Asked = NotYet | At(time: int)

  /** The rows held: the fetched ones, with an epoch written only where the query gave no usable one. */
  function Held(e: Entry): seq<Cells>
    requires e.fetched != []
  {
    if HasEpoch(e.fetched[0]) then e.fetched
    else if EPOCH_COLUMN !in e.fetched[0] then TouchedAll(e.fetched, e.putAt)
    else if e.asked.NotYet? then e.fetched
    else e.fetched[0 := Touched(e.fetched[0], e.asked.time)]
  }

  /** What the age of an entry is measured from when it is asked for at `pinTime`. */
  function Since(e: Entry, pinTime: int): int
    requires e.fetched != []
  {
    if HasEpoch(e.fetched[0]) then e.fetched[0][EPOCH_COLUMN].i
    else if EPOCH_COLUMN !in e.fetched[0] then e.putAt
    else if e.asked.At? then e.asked.time
    else pinTime
  }

  /** The entry after it was asked for. */
  function Ask(e: Entry, pinTime: int): Entry
    requires e.fetched != []
  {
    if !WellTyped(e.fetched[0]) && e.asked.NotYet? then e.(asked := At(pinTime)) else e
  }

  /** Asking reads the epoch of the first row held, writing one first if there is none. */
  lemma {:induction false} AskReadsSince(e: Entry, pinTime: int)
    requires e.fetched != []
    ensures HasEpoch(Pin(Held(e)[0], pinTime)) && Pin(Held(e)[0], pinTime)[EPOCH_COLUMN].i == Since(e, pinTime)
    ensures Held(e)[0 := Pin(Held(e)[0], pinTime)] == Held(Ask(e, pinTime))
    ensures Since(Ask(e, pinTime), pinTime) == Since(e, pinTime) && Ask(e, pinTime).fetched == e.fetched
  {
  }

  /** The sender's and the epoch column aside, the rows held are the rows fetched. */
  lemma {:induction false} HeldAreFetched(e: Entry, i: nat)
    requires i < |e.fetched|
    ensures |Held(e)| == |e.fetched| && Held(e)[i] - {EPOCH_COLUMN} == e.fetched[i] - {EPOCH_COLUMN}
    ensures HasEpoch(e.fetched[0]) ==> Held(e) == e.fetched
  {
  }

  /** When the rows were measured: their own epoch, or the moment they were put. */
  function Born(e: Entry): int
    requires e.fetched != []
  {
    if HasEpoch(e.fetched[0]) then e.fetched[0][EPOCH_COLUMN].i else e.putAt
  }

  /** The entry is served when asked for at `pinTime` and judged at `now`. */
  predicate Served(e: Entry, pinTime: int, now: int, age: int)
    requires e.fetched != []
  {
    now - Since(e, pinTime) <= age
  }

  ghost predicate NeverTooOld(e: Entry)
    requires e.fetched != []
  {
    forall pinTime, now, age :: e.putAt <= pinTime <= now && Served(e, pinTime, now, age) ==> now - Born(e) <= age
  }

  /**
   * A fresh entry is never served beyond the allowed age if and only if the first fetched row has an
   * integer epoch or no epoch column: an ill-typed one is set to the moment of the first question.
   */
  lemma {:induction false} NeverTooOldIff(e: Entry)
    requires e.fetched != [] && e.asked.NotYet?
    ensures NeverTooOld(e) <==> WellTyped(e.fetched[0])
  {
    if !WellTyped(e.fetched[0]) {
      assert Served(e, e.putAt + 1, e.putAt + 1, 0);
    }
  }

  /** A well-typed entry is served exactly while it is no older than the allowed age. */
  lemma {:induction false} ServedWhileFresh(e: Entry, pinTime: int, now: int, age: int)
    requires e.fetched != []
    ensures WellTyped(e.fetched[0]) ==> (Served(e, pinTime, now, age) <==> now - Born(e) <= age)
    ensures !WellTyped(e.fetched[0]) ==>
      (Served(e, pinTime, now, age) <==> now - (if e.asked.At? then e.asked.time else pinTime) <= age)
  {
  }

  ghost predicate AllCarry(o: Options, s: SourceInfo, rows: seq<Cells>) {
    forall i :: 0 <= i < |rows| ==> Carries(o, s, rows[i])
  }

  datatype Sent = Sent(source: SourceInfo, data: seq<Measurement>)

  ghost function Rows(data: seq<Measurement>): set<Measurement> {
    set i | 0 <= i < |data| :: data[i]
  }

  ghost function Contents(data: seq<Measurement>): seq<Cells>
    reads Rows(data)
  {
    seq(|data|, i requires 0 <= i < |data| reads Rows(data) => data[i].cells)
  }

  ghost predicate Separate(data: seq<Measurement>) {
    forall i, j :: 0 <= i < j < |data| ==> data[i] != data[j]
  }

  /** New rows with the same cells. */
  method DeepCopy(data: seq<Measurement>) returns (copy: seq<Measurement>)
    ensures fresh(Rows(copy)) && Separate(copy)
    ensures Contents(copy) == Contents(data)
  {
    copy := [];
    for i := 0 to |data|
      invariant |copy| == i && Separate(copy)
      invariant forall k :: 0 <= k < i ==> fresh(copy[k]) && copy[k].cells == data[k].cells
    {
      var row := new Measurement(data[i].cells);
      copy := copy + [row];
    }
  }

  /** Give every row the current time. */
  method Touch(data: seq<Measurement>, ns: int)
    requires Separate(data)
    modifies Rows(data)
    ensures forall i :: 0 <= i < |data| ==> data[i].cells == Touched(old(data[i].cells), ns)
  {
    for i := 0 to |data|
      invariant forall k :: 0 <= k < i ==> data[k].cells == Touched(old(data[k].cells), ns)
      invariant forall k :: i <= k < |data| ==> data[k].cells == old(data[k].cells)
    {
      data[i].cells := Touched(data[i].cells, ns);
    }
  }

  /** A private copy of a query result, given the current time when its first row has no epoch. */
  method CopyForCache(data: seq<Measurement>, now: int) returns (m: seq<Measurement>)
    requires data != []
    ensures |m| == |data| && fresh(Rows(m)) && Separate(m)
    ensures Contents(m) == Held(Entry(old(Contents(data)), now, NotYet))
  {
    m := DeepCopy(data);
    assert Contents(m)[0] == m[0].cells && |m| == |Contents(m)|;
    assert forall i :: 0 <= i < |m| ==> m[i].cells == Contents(data)[i] by {
      assert forall i :: 0 <= i < |m| ==> Contents(m)[i] == m[i].cells;
    }
    if EPOCH_COLUMN !in m[0].cells {
      Touch(m, now);
    }
  }

  /** AddSysinfoToMeasurements. */
  method AddSysinfo(o: Options, s: SourceInfo, data: seq<Measurement>)
    requires Separate(data)
    modifies Rows(data)
    ensures forall i :: 0 <= i < |data| ==> data[i].cells == Enrich(o, s, old(data[i].cells))
  {
    for i := 0 to |data|
      invariant forall k :: 0 <= k < i ==> data[k].cells == Enrich(o, s, old(data[k].cells))
      invariant forall k :: i <= k < |data| ==> data[k].cells == old(data[k].cells)
    {
      var dr := data[i];
      if o.realDbnameField != "" && s.realDbname != "" {
        dr.cells := dr.cells[o.realDbnameField := Text(s.realDbname)];
      }
      if o.systemIdentifierField != "" && s.systemIdentifier != "" {
        dr.cells := dr.cells[o.systemIdentifierField := Text(s.systemIdentifier)];
      }
    }
  }

  class SharedCache {
    const options: Options
    var cache: map<string, seq<Measurement>>
    /** The envelopes on the measurement channel. */
    var sent: seq<Sent>
    /** What happened to each cache entry, the rows the cache holds, the rows sent. */
    ghost var entries: map<string, Entry>
    ghost var cached: set<Measurement>
    ghost var given: set<Measurement>

    ghost predicate EntryOk(key: string)
      reads `cache, `entries, `cached, cached
      requires key in cache
    {
      && cache[key] != [] && Rows(cache[key]) <= cached && Separate(cache[key])
      && key in entries && entries[key].fetched != [] && Contents(cache[key]) == Held(entries[key])
    }

    ghost predicate SentOk(j: int)
      reads `sent, `given, given
      requires 0 <= j < |sent|
    {
      Rows(sent[j].data) <= given && AllCarry(options, sent[j].source, Contents(sent[j].data))
    }

    ghost predicate CacheOk()
      reads `cache, `entries, `cached, cached
    {
      && (forall key :: key in cache ==> EntryOk(key))
      && (forall key, key' :: key in cache && key' in cache && key != key' ==> Rows(cache[key]) !! Rows(cache[key']))
    }

    /** Every envelope carries its sender's columns and shares no row with another envelope. */
    ghost predicate ChannelOk()
      reads `sent, `given, given
    {
      && (forall j :: 0 <= j < |sent| ==> SentOk(j))
      && (forall j, k :: 0 <= j < k < |sent| ==> Rows(sent[j].data) !! Rows(sent[k].data))
    }

    /** No envelope shares a row with the cache. */
    ghost predicate Valid()
      reads this, cached, given
    {
      cached !! given && CacheOk() && ChannelOk()
    }

    constructor (options: Options)
      ensures Valid() && this.options == options && cache == map[] && sent == []
    {
      this.options := options;
      cache, sent, entries, cached, given := map[], [], map[], {}, {};
    }

    /** Take rows nobody else has into the cache. */
    method Install(key: string, m: seq<Measurement>, ghost e: Entry)
      requires Valid() && m != [] && Separate(m) && Rows(m) !! cached && Rows(m) !! given
      requires e.fetched != [] && Contents(m) == Held(e)
      modifies this`cache, this`entries, this`cached
      ensures Valid() && cached == old(cached) + Rows(m)
      ensures cache == old(cache)[key := m] && entries == old(entries)[key := e]
    {
      hide Held, AllCarry, Separate, Contents, Rows;
      cache := cache[key := m];
      entries := entries[key := e];
      cached := cached + Rows(m);
      forall k | k in cache ensures EntryOk(k) {
        if k != key {
          assert old(EntryOk(k));
        }
      }
      forall k, k' | k in cache && k' in cache && k != k' ensures Rows(cache[k]) !! Rows(cache[k']) {
        assert k != key ==> old(EntryOk(k));
        assert k' != key ==> old(EntryOk(k'));
      }
      assert CacheOk();
      forall j | 0 <= j < |sent| ensures SentOk(j) {
        assert old(SentOk(j));
      }
      assert ChannelOk();
    }

    /** Keep a private copy of a query result. */
    method Put(key: string, data: seq<Measurement>, now: int)
      requires Valid()
      modifies this`cache, this`entries, this`cached
      ensures Valid() && old(cached) <= cached && fresh(cached - old(cached))
      ensures entries == if data == [] || key == "" then old(entries) else old(entries)[key := Entry(old(Contents(data)), now, NotYet)]
      ensures cache.Keys == if data == [] || key == "" then old(cache).Keys else old(cache).Keys + {key}
    {
      hide Held, AllCarry, Separate, Contents, EntryOk, SentOk, CacheOk, ChannelOk;
      if |data| == 0 || key == "" {
        return;
      }
      ghost var rows := Contents(data);
      NotEmpty(data);
      var m := CopyForCache(data, now);
      Install(key, m, Entry(rows, now, NotYet));
    }

    /**
     * A copy of what is remembered under the key, unless it is older than the allowed age. The clock
     * is read twice: for an epoch that is missing, and for the age.
     */
    method Get(key: string, age: int, pinTime: int, now: int) returns (data: seq<Measurement>)
      requires Valid()
      modifies cached, this`entries
      ensures Valid() && fresh(Rows(data)) && Separate(data)
      ensures entries == if key != "" && key in cache then old(entries)[key := Ask(old(entries[key]), pinTime)] else old(entries)
      ensures data != [] <==> key != "" && key in cache && Served(old(entries[key]), pinTime, now, age)
      ensures data != [] ==> Contents(data) == Held(entries[key])
      ensures key != "" && key in cache && WellTyped(old(entries[key]).fetched[0]) ==>
          (data != [] <==> now - Born(old(entries[key])) <= age)
    {
      hide Held, AllCarry, Contents, Ask;
      data := [];
      if key == "" || key !in cache {
        return;
      }
      ServedWhileFresh(entries[key], pinTime, now, age);
      var epoch := PinFirst(key, pinTime);
      if now - epoch > age {
        return;
      }
      data := DeepCopy(cache[key]);
      SameLength(cache[key]);
      SameLength(data);
    }

    /** GetEpoch on a cached entry, which may write into its first row. */
    method PinFirst(key: string, pinTime: int) returns (epoch: int)
      requires Valid() && key in cache
      modifies cached, this`entries
      ensures Valid()
      ensures entries == old(entries)[key := Ask(old(entries[key]), pinTime)]
      ensures epoch == Since(old(entries[key]), pinTime)
    {
      hide Held, Since, Ask, ChannelOk;
      assert EntryOk(key);
      var row := cache[key][0];
      ghost var e, rows := entries[key], Contents(cache[key]);
      AskReadsSince(e, pinTime);
      assert row in Rows(cache[key]);
      epoch := row.GetEpoch(pinTime);
      entries := entries[key := Ask(e, pinTime)];
      assert Contents(cache[key]) == rows[0 := Pin(rows[0], pinTime)];
      hide Pin;
      assert EntryOk(key);
      forall k | k in cache && k != key ensures EntryOk(k) {
        assert old(EntryOk(k));
        assert row !in Rows(cache[k]);
        assert Contents(cache[k]) == old(Contents(cache[k]));
      }
    }

    /** sendEnvelope: the sender's columns go into the rows it sends. */
    method Send(source: SourceInfo, data: seq<Measurement>)
      requires Valid() && Separate(data) && Rows(data) !! cached && Rows(data) !! given
      modifies this`sent, this`given, Rows(data)
      ensures Valid() && sent == old(sent) + [Sent(source, data)] && given == old(given) + Rows(data)
      ensures forall i :: 0 <= i < |data| ==> data[i].cells == Enrich(options, source, old(data[i].cells))
    {
      hide CacheOk;
      AddSysinfo(options, source, data);
      sent := sent + [Sent(source, data)];
      given := given + Rows(data);
      forall i | 0 <= i < |data| ensures Carries(options, source, data[i].cells) {
        EnrichCarries(options, source, old(data[i].cells));
      }
      assert AllCarry(options, source, Contents(data));
      hide AllCarry, Enrich;
      forall j | 0 <= j < |sent| ensures SentOk(j) {
        if j < |old(sent)| {
          assert old(SentOk(j));
          assert Contents(sent[j].data) == old(Contents(sent[j].data));
        }
      }
      forall j, k | 0 <= j < k < |sent| ensures Rows(sent[j].data) !! Rows(sent[k].data) {
        if k == |old(sent)| {
          assert old(SentOk(j));
        }
      }
      assert ChannelOk();
    }

    /** dispatchMetricData: the query result is put into the cache and then sent. */
    method Dispatch(source: SourceInfo, key: string, data: seq<Measurement>, now: int)
      requires Valid() && data != [] && Separate(data) && Rows(data) !! cached && Rows(data) !! given
      modifies this, Rows(data)
      ensures Valid() && sent == old(sent) + [Sent(source, data)]
      ensures old(cached) <= cached && fresh(cached - old(cached))
      ensures cache.Keys == if key == "" then old(cache).Keys else old(cache).Keys + {key}
      ensures entries == if key == "" then old(entries) else old(entries)[key := Entry(old(Contents(data)), now, NotYet)]
      ensures forall i :: 0 <= i < |data| ==> data[i].cells == Enrich(options, source, old(data[i].cells))
    {
      hide Held, AllCarry, Enrich, Contents, EntryOk, SentOk, CacheOk, ChannelOk;
      Put(key, data, now);
      Send(source, data);
    }

    /** A cache hit is sent on behalf of another source; otherwise the metric has to be fetched. */
    method Serve(source: SourceInfo, key: string, age: int, pinTime: int, now: int) returns (hit: bool)
      requires Valid()
      modifies this`sent, this`given, this`entries, cached
      ensures Valid()
      ensures entries == if key != "" && key in cache then old(entries)[key := Ask(old(entries[key]), pinTime)] else old(entries)
      ensures hit <==> key != "" && key in cache && Served(old(entries[key]), pinTime, now, age)
      ensures key != "" && key in cache && WellTyped(old(entries[key]).fetched[0]) ==> (hit <==> now - Born(old(entries[key])) <= age)
      ensures !hit ==> sent == old(sent)
      ensures hit ==> |sent| == |old(sent)| + 1 && sent[..|old(sent)|] == old(sent)
      ensures hit ==> sent[|old(sent)|].source == source && |sent[|old(sent)|].data| == |Held(entries[key])|
      ensures hit ==> forall i :: 0 <= i < |Held(entries[key])| ==>
          sent[|old(sent)|].data[i].cells == Enrich(options, source, Held(entries[key])[i])
    {
      hide Held, AllCarry, Enrich, Contents, EntryOk, SentOk, ChannelOk, CacheOk, Ask, Since, Served, Born, WellTyped, Separate;
      var data := Get(key, age, pinTime, now);
      hit := |data| > 0;
      if hit {
        SameLength(data);
        Send(source, data);
      }
    }

    /**
     * Rows whose epoch is not an integer, put long ago, are served as if new: the first question dates them.
     */
    method StaleHit(source: SourceInfo, data: seq<Measurement>) returns (hit: bool)
      requires Valid() && |data| == 1 && Rows(data) !! cached && Rows(data) !! given
      requires data[0].cells == map[EPOCH_COLUMN := Float(0.0)]
      modifies this, cached, Rows(data)
      ensures Valid() && hit
      ensures "cluster:locks" in entries && entries["cluster:locks"].fetched != []
      ensures 1_000_000 - Born(entries["cluster:locks"]) > 10
    {
      SameLength(data);
      hide AllCarry, Enrich, Contents, SentOk, ChannelOk, CacheOk, EntryOk;
      Dispatch(source, "cluster:locks", data, 0);
      hit := Serve(source, "cluster:locks", 10, 1_000_000, 1_000_000);
    }
  }

  lemma {:induction false} NotEmpty(data: seq<Measurement>)
    ensures Contents(data) == [] <==> data == []
  {
  }

  lemma {:induction false} SameLength(data: seq<Measurement>)
    ensures |Contents(data)| == |data| && forall i :: 0 <= i < |data| ==> Contents(data)[i] == data[i].cells
  {
  }
}
