/** What appending to, syncing and truncating a write-ahead log does to its crash outcomes. */
module WalFiles {
  import opened Coding
  import opened Configuration
  import opened Runs
  import opened Wal
  import opened WalLog
  import opened FileSystem
  import opened Durability

  /** A record that may follow the log `written` in a file whose records start above `floor`. */
  ghost predicate MayFollow(r: Record, written: seq<Record>, floor: nat, o: Options) {
    && Encodable(r, o) && r.sequence > floor
    && (forall i :: 0 <= i < |written| ==> r.sequence > written[i].sequence)
  }

  /** The file holds exactly these records and no torn tail. */
  ghost predicate Holds(f: File, written: seq<Record>, o: Options) {
    f.current == LogBytes(written) && AllEncodable(written, o) && Rising(written, 0)
  }

  lemma HoldsRecovers(f: File, written: seq<Record>, o: Options)
    requires Holds(f, written, o)
    ensures Recover(f.current, o, 0) == Recovered(written, |f.current|)
  {
    hide Recover, LogBytes;
    RecoverExact(written, [], o, 0);
    assert LogBytes(written) + [] == LogBytes(written);
  }

  lemma ContentSkips(content: Bytes, floor: nat, log: seq<Record>, h: History, r: Record, o: Options)
    requires WalContentOk(content, floor, log, h, o)
    ensures WalContentOk(content, floor, log, h + [Event(r, false)], o)
  {
    hide Recover, Rising, Explains;
    ExplainsSkip(log + Recover(content, o, 0).records, h, r);
  }

  /** The file with one more complete record. */
  lemma ContentTakes(written: seq<Record>, r: Record, floor: nat, log: seq<Record>, h: History, confirmed: bool, o: Options)
    requires WalContentOk(LogBytes(written), floor, log, h, o)
    requires AllEncodable(written, o) && Rising(written, 0) && MayFollow(r, written, floor, o)
    ensures WalContentOk(LogBytes(written) + Encoding(r), floor, log, h + [Event(r, confirmed)], o)
  {
    hide Recover, LogBytes, Explains, Encoding, Encodable;
    RecoverExact(written, [], o, 0);
    assert LogBytes(written) + [] == LogBytes(written);
    var longer := written + [r];
    LogBytesAppend(written, [r]);
    LogBytesOne(r);
    RecoverExact(longer, [], o, 0);
    assert LogBytes(longer) + [] == LogBytes(written) + Encoding(r);
    ExplainsTake(log + written, h, r, confirmed);
    assert log + longer == log + written + [r];
  }

  /** The file with part of one more record. */
  lemma ContentTorn(written: seq<Record>, r: Record, k: nat, floor: nat, log: seq<Record>, h: History, o: Options)
    requires WalContentOk(LogBytes(written), floor, log, h, o)
    requires AllEncodable(written, o) && Rising(written, 0) && Encodable(r, o) && k < |Encoding(r)|
    ensures WalContentOk(LogBytes(written) + Encoding(r)[..k], floor, log, h, o)
  {
    hide Recover, LogBytes, Explains, Encoding, Encodable, Rising;
    RecoverExact(written, [], o, 0);
    assert LogBytes(written) + [] == LogBytes(written);
    assert Torn(Encoding(r)[..k], o);
    RecoverExact(written, Encoding(r)[..k], o, 0);
  }

  /** An append that has issued `count` bytes of a record: the record may or may not survive. */
  lemma AppendOk(f: File, written: seq<Record>, r: Record, count: nat, floor: nat, log: seq<Record>, h: History, o: Options)
    requires WalOk(f, floor, log, h, o) && Holds(f, written, o) && MayFollow(r, written, floor, o)
    requires count <= |Encoding(r)|
    ensures WalOk(f.Append(Encoding(r)[..count]), floor, log, h + [Event(r, false)], o)
  {
    hide WalContentOk, LogBytes, Encoding, Encodable, Rising;
    var data := Encoding(r)[..count];
    var g, h' := f.Append(data), h + [Event(r, false)];
    CurrentMayBecome(f);
    AppendMayBecome(f, data, g.current);
    forall content | g.MayBecome(content) ensures WalContentOk(content, floor, log, h', o) {
      AppendMayBecome(f, data, content);
      if f.MayBecome(content) {
        ContentSkips(content, floor, log, h, r, o);
      } else {
        var k :| 0 <= k <= |data| && content == f.current + data[..k];
        AppendedContent(written, r, k, floor, log, h, o);
        assert data[..k] == Encoding(r)[..k];
      }
    }
  }

  lemma AppendedContent(written: seq<Record>, r: Record, k: nat, floor: nat, log: seq<Record>, h: History, o: Options)
    requires WalContentOk(LogBytes(written), floor, log, h, o)
    requires AllEncodable(written, o) && Rising(written, 0) && MayFollow(r, written, floor, o) && k <= |Encoding(r)|
    ensures WalContentOk(LogBytes(written) + Encoding(r)[..k], floor, log, h + [Event(r, false)], o)
  {
    hide WalContentOk, LogBytes, Encoding, Rising;
    if k < |Encoding(r)| {
      ContentTorn(written, r, k, floor, log, h, o);
      ContentSkips(LogBytes(written) + Encoding(r)[..k], floor, log, h, r, o);
    } else {
      ContentTakes(written, r, floor, log, h, false, o);
      assert Encoding(r)[..k] == Encoding(r);
    }
  }

  /** A complete append followed by a successful sync: the record survives every crash. */
  lemma ConfirmOk(f: File, written: seq<Record>, r: Record, floor: nat, log: seq<Record>, h: History, o: Options)
    requires WalOk(f, floor, log, h, o) && Holds(f, written, o) && MayFollow(r, written, floor, o)
    ensures WalOk(f.Append(Encoding(r)).Sync(), floor, log, h + [Event(r, true)], o)
    ensures Holds(f.Append(Encoding(r)).Sync(), written + [r], o)
  {
    hide WalContentOk, LogBytes, Encoding, Encodable;
    CurrentMayBecome(f);
    ContentTakes(written, r, floor, log, h, true, o);
    LogBytesAppend(written, [r]);
    LogBytesOne(r);
    var g := f.Append(Encoding(r)).Sync();
    forall content | g.MayBecome(content) ensures WalContentOk(content, floor, log, h + [Event(r, true)], o) {
      StableMayBecome(g, content);
    }
  }

  lemma SyncOk(f: File, floor: nat, log: seq<Record>, h: History, o: Options)
    requires WalOk(f, floor, log, h, o)
    ensures WalOk(f.Sync(), floor, log, h, o)
  {
    hide WalContentOk;
    CurrentMayBecome(f);
    forall content | f.Sync().MayBecome(content) ensures WalContentOk(content, floor, log, h, o) {
      StableMayBecome(f.Sync(), content);
    }
  }

  /** Cutting off the torn tail that recovery found. */
  lemma TruncateOk(f: File, floor: nat, log: seq<Record>, h: History, o: Options)
    requires WalOk(f, floor, log, h, o)
    ensures Recover(f.current, o, 0).Recovered?
    ensures WalOk(f.Truncate(Recover(f.current, o, 0).validBytes), floor, log, h, o)
  {
    CurrentMayBecome(f);
    assert WalContentOk(f.current, floor, log, h, o);
    var size := Recover(f.current, o, 0).validBytes;
    hide WalContentOk, Recover;
    var g := f.Truncate(size);
    TruncateMayBecome(f, size, g.current);
    forall content | g.MayBecome(content) ensures WalContentOk(content, floor, log, h, o) {
      TruncateMayBecome(f, size, content);
      if !f.MayBecome(content) {
        TailContent(f.current, content, floor, log, h, o);
      }
    }
  }

  /** Cutting inside the torn tail recovers the same records. */
  lemma TailContent(current: Bytes, content: Bytes, floor: nat, log: seq<Record>, h: History, o: Options)
    requires WalContentOk(current, floor, log, h, o) && content <= current
    requires Recover(current, o, 0).Recovered? && Recover(current, o, 0).validBytes <= |content|
    ensures WalContentOk(content, floor, log, h, o)
  {
    hide Rising, Explains;
    RecoverCut(current, |content|, o, 0);
    assert content == current[..|content|];
  }

  lemma {:induction false} RecoverCut(current: Bytes, size: nat, o: Options, floor: nat)
    requires Recover(current, o, floor).Recovered? && Recover(current, o, floor).validBytes <= size <= |current|
    ensures Recover(current[..size], o, floor) == Recover(current, o, floor)
    decreases |current|
  {
    hide DecodeHeader, DecodeRecord;
    var cut := current[..size];
    if |cut| >= WAL_HEADER_SIZE {
      assert cut[..WAL_HEADER_SIZE] == current[..WAL_HEADER_SIZE];
      var n := DecodeHeader(current[..WAL_HEADER_SIZE], o).value.recordSize;
      if n <= |current| {
        var rest := Recover(current[n..], o, DecodeRecord(current[..n], o).value.sequence);
        assert n <= size;
        assert cut[..n] == current[..n];
        assert cut[n..] == current[n..][..size - n];
        RecoverCut(current[n..], size - n, o, DecodeRecord(current[..n], o).value.sequence);
      }
    }
  }

  lemma FreshOk(floor: nat, log: seq<Record>, h: History, o: Options)
    requires Explains(log, h)
    ensures WalOk(StableFile([]), floor, log, h, o)
  {
    hide Explains;
    forall content | StableFile([]).MayBecome(content) ensures WalContentOk(content, floor, log, h, o) {
      StableMayBecome(StableFile([]), content);
      assert log + [] == log;
    }
  }
}
