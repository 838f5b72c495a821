/**
 * Terms acceptance kept in browser storage (terms-acceptance.ts). Any read and any write may fail; neither failure is
 * ever reported to the caller.
 */
module TermsStore {
  import opened Text

  /** Parsed JSON, as far as the store looks at it. */
  datatype Json = JNull | JBool(b: bool) | JNum(n: int) | JStr(s: string) | JObj(members: map<string, Json>)

  /** What the storage key holds. */
  datatype Stored = Nothing | Unparsable | Parsed(value: Json)

  predicate HasString(m: map<string, Json>, key: string) { key in m && m[key].JStr? }

  predicate IsTermsAcceptance(v: Json) {
    && v.JObj?
    && HasString(v.members, "termsVersion")
    && HasString(v.members, "termsTextSha256")
    && "acceptedAt" in v.members && v.members["acceptedAt"].JNum?
    && HasString(v.members, "address")
  }

  function Acceptance(version: string, hash: string, at: int, address: string): Json {
    JObj(map["termsVersion" := JStr(version), "termsTextSha256" := JStr(hash), "acceptedAt" := JNum(at),
             "address" := JStr(address)])
  }

  lemma AcceptanceIsOne(version: string, hash: string, at: int, address: string)
    ensures IsTermsAcceptance(Acceptance(version, hash, at, address))
    ensures Acceptance(version, hash, at, address).members["termsVersion"] == JStr(version)
    ensures Acceptance(version, hash, at, address).members["termsTextSha256"] == JStr(hash)
  {
    assert "termsVersion"[5] != "termsTextSha256"[5];
    assert "termsVersion"[0] != "acceptedAt"[0] && "termsTextSha256"[0] != "acceptedAt"[0];
    assert "termsVersion"[0] != "address"[0] && "termsTextSha256"[0] != "address"[0] && "acceptedAt"[1] != "address"[1];
  }

  /** The entries worth keeping. */
  function WellFormed(entries: map<string, Json>): map<string, Json> {
    map k | k in entries && IsTermsAcceptance(entries[k]) :: entries[k]
  }

  /** Everything a read yields: nothing unless the read works and finds a JSON object. */
  function AllOf(stored: Stored, readable: bool): map<string, Json> {
    if readable && stored.Parsed? && stored.value.JObj? then WellFormed(stored.value.members) else map[]
  }

  predicate Accepts(all: map<string, Json>, address: string, version: string, hash: string) {
    Lower(address) in all && IsTermsAcceptance(all[Lower(address)])
    && all[Lower(address)].members["termsVersion"] == JStr(version)
    && all[Lower(address)].members["termsTextSha256"] == JStr(hash)
  }

  /** The answer as a value: a missing address or hash is never accepted. */
  predicate Answer(stored: Stored, readable: bool, address: Option<string>, version: string, hash: Option<string>) {
    address.Some? && hash.Some? && Accepts(AllOf(stored, readable), address.value, version, hash.value)
  }

  /** A well-formed entry that accepts these terms, member by member. */
  predicate AcceptingEntry(v: Json, version: string, hash: string) {
    && v.JObj? && "termsVersion" in v.members && "termsTextSha256" in v.members
    && "acceptedAt" in v.members && "address" in v.members
    && v.members["termsVersion"] == JStr(version) && v.members["termsTextSha256"] == JStr(hash)
    && v.members["acceptedAt"].JNum? && v.members["address"].JStr?
  }

  /** A yes, spelled out: the store can be read and holds an object with an accepting entry at the lower-case spelling
      of the address. */
  lemma {:induction false} YesExactly(stored: Stored, readable: bool, address: string, key: string, version: string,
      hash: string)
    requires SameLetters(address, key) && forall i :: 0 <= i < |key| ==> !('A' <= key[i] <= 'Z')
    ensures Answer(stored, readable, Some(address), version, Some(hash)) <==>
            && readable && stored.Parsed? && stored.value.JObj?
            && key in stored.value.members && AcceptingEntry(stored.value.members[key], version, hash)
  {
    LowerIs(address, key);
  }

  /** One call of `recordTermsAcceptance`, with what storage did. */
  datatype Record = Record(address: string, version: string, hash: string, at: int, readable: bool, writable: bool)

  function AfterRecord(stored: Stored, r: Record): Stored {
    if !r.writable then stored
    else Parsed(JObj(AllOf(stored, r.readable)[Lower(r.address) := Acceptance(r.version, r.hash, r.at, r.address)]))
  }

  /** What a write leaves, spelled out: at the lower-case address the four members of the record, and elsewhere the
      entries that were read and are well formed. */
  lemma {:induction false} RecordWrites(stored: Stored, r: Record, key: string, other: string)
    requires r.writable && SameLetters(r.address, key) && (forall i :: 0 <= i < |key| ==> !('A' <= key[i] <= 'Z'))
    requires other != key
    ensures var next := AfterRecord(stored, r);
            && next.Parsed? && next.value.JObj? && key in next.value.members
            && AcceptingEntry(next.value.members[key], r.version, r.hash)
            && next.value.members[key].members["acceptedAt"] == JNum(r.at)
            && next.value.members[key].members["address"] == JStr(r.address)
            && (other in next.value.members <==>
                && r.readable && stored.Parsed? && stored.value.JObj? && other in stored.value.members
                && IsTermsAcceptance(stored.value.members[other]))
            && (other in next.value.members ==> next.value.members[other] == stored.value.members[other])
  {
    LowerIs(r.address, key);
    AcceptanceIsOne(r.version, r.hash, r.at, r.address);
  }

  class BrowserStore {
    var stored: Stored

    constructor (stored: Stored)
      ensures this.stored == stored
    {
      this.stored := stored;
    }

    method ReadAll(readable: bool) returns (out: map<string, Json>)
      ensures out == AllOf(stored, readable)
    {
      out := map[];
      if !readable || !stored.Parsed? || !stored.value.JObj? { return; }
      var entries := stored.value.members;
      var todo := entries.Keys;
      while todo != {}
        invariant todo <= entries.Keys
        invariant forall k :: k in out <==> k in entries && k !in todo && IsTermsAcceptance(entries[k])
        invariant forall k :: k in out ==> k in entries && out[k] == entries[k]
        decreases todo
      {
        var k :| k in todo;
        if IsTermsAcceptance(entries[k]) { out := out[k := entries[k]]; }
        todo := todo - {k};
      }
      assert out == WellFormed(entries);
    }

    /** A refused write leaves the store as it was. */
    method WriteAll(all: map<string, Json>, writable: bool)
      modifies this
      ensures stored == if writable then Parsed(JObj(all)) else old(stored)
    {
      if writable { stored := Parsed(JObj(all)); }
    }

    method RecordTermsAcceptance(r: Record)
      modifies this
      ensures stored == AfterRecord(old(stored), r)
    {
      var all := ReadAll(r.readable);
      all := all[Lower(r.address) := Acceptance(r.version, r.hash, r.at, r.address)];
      WriteAll(all, r.writable);
    }

    method HasAcceptedCurrentTerms(address: Option<string>, version: string, hash: Option<string>, readable: bool)
        returns (accepted: bool)
      ensures accepted == Answer(stored, readable, address, version, hash)
    {
      if address.None? || hash.None? { return false; }
      var all := ReadAll(readable);
      var key := Lower(address.value);
      if key !in all { return false; }
      return all[key].members["termsVersion"] == JStr(version)
        && all[key].members["termsTextSha256"] == JStr(hash.value);
    }
  }

  // ---------------------------------------------------------------- whole runs

  function After(stored: Stored, records: seq<Record>): Stored {
    if records == [] then stored else AfterRecord(After(stored, records[..|records| - 1]), records[|records| - 1])
  }

  /** The record speaks for this address, ignoring case. */
  predicate For(r: Record, address: string) { Lower(r.address) == Lower(address) }

  /** The record took effect and decides the answer for this address: it is for the address, or its read failed, so
      that its write dropped every other address. */
  predicate Decides(r: Record, address: string) { r.writable && (For(r, address) || !r.readable) }

  predicate Says(r: Record, address: string, version: string, hash: string) {
    For(r, address) && r.version == version && r.hash == hash
  }

  lemma {:induction false} OneRecord(stored: Stored, r: Record, address: string, version: string, hash: string)
    ensures Answer(AfterRecord(stored, r), true, Some(address), version, Some(hash))
            == if Decides(r, address) then Says(r, address, version, hash)
              else Answer(stored, true, Some(address), version, Some(hash))
  {
    AcceptanceIsOne(r.version, r.hash, r.at, r.address);
    var all := AllOf(stored, r.readable);
    var next := AllOf(AfterRecord(stored, r), true);
    if r.writable {
      assert next == all[Lower(r.address) := Acceptance(r.version, r.hash, r.at, r.address)] by {
        forall k | k in all ensures IsTermsAcceptance(all[k]) {}
      }
      assert JStr(r.version) == JStr(version) <==> r.version == version;
      assert JStr(r.hash) == JStr(hash) <==> r.hash == hash;
    }
  }

  /** `records[i]` says so, took effect, and no later record decides otherwise. */
  predicate LastWord(records: seq<Record>, i: nat, address: string, version: string, hash: string)
    requires i < |records|
  {
    && Decides(records[i], address) && Says(records[i], address, version, hash)
    && forall j :: i < j < |records| ==> !Decides(records[j], address)
  }

  predicate HasLastWord(records: seq<Record>, address: string, version: string, hash: string) {
    exists i :: 0 <= i < |records| && LastWord(records, i, address, version, hash)
  }

  predicate Undecided(records: seq<Record>, address: string) {
    forall j :: 0 <= j < |records| ==> !Decides(records[j], address)
  }

  /** After any run of records, with reads and writes failing arbitrarily, the answer is yes exactly when the last
      record that decides for this address accepted exactly this version and this hash; with no such record, the
      answer is what the store began with. */
  lemma {:induction false} AcceptedIffLastDecidingRecord(start: Stored, records: seq<Record>, address: string,
      version: string, hash: string)
    ensures Answer(After(start, records), true, Some(address), version, Some(hash)) <==>
            || HasLastWord(records, address, version, hash)
            || (Answer(start, true, Some(address), version, Some(hash)) && Undecided(records, address))
  {
    if records != [] {
      var front, last := records[..|records| - 1], records[|records| - 1];
      assert records == front + [last];
      AcceptedIffLastDecidingRecord(start, front, address, version, hash);
      OneRecord(After(start, front), last, address, version, hash);
      OneMoreRecord(front, last, address, version, hash);
    }
  }

  lemma {:induction false} OneMoreRecord(front: seq<Record>, last: Record, address: string, version: string,
      hash: string)
    ensures HasLastWord(front + [last], address, version, hash)
            <==> if Decides(last, address) then Says(last, address, version, hash)
              else HasLastWord(front, address, version, hash)
    ensures Undecided(front + [last], address) <==> Undecided(front, address) && !Decides(last, address)
  {
    var records := front + [last];
    assert records[|front|] == last;
    assert forall j :: 0 <= j < |front| ==> records[j] == front[j];
    if Decides(last, address) && Says(last, address, version, hash) {
      assert LastWord(records, |front|, address, version, hash);
    }
    if !Decides(last, address) && HasLastWord(front, address, version, hash) {
      var i: nat :| i < |front| && LastWord(front, i, address, version, hash);
      assert LastWord(records, i, address, version, hash);
    }
    if HasLastWord(records, address, version, hash) {
      var i: nat :| i < |records| && LastWord(records, i, address, version, hash);
      if !Decides(last, address) { assert LastWord(front, i, address, version, hash); }
    }
    if Undecided(records, address) {
      forall j | 0 <= j < |front| ensures !Decides(front[j], address) { assert records[j] == front[j]; }
    }
  }

  /** From an empty or unreadable store a yes always comes from an earlier record of exactly that version and hash,
      by that address ignoring case, whose write succeeded; and an unreadable store never answers yes. */
  lemma {:induction false} AcceptanceWasRecorded(start: Stored, records: seq<Record>, readable: bool,
      address: Option<string>, version: string, hash: Option<string>)
      returns (i: nat)
    requires start == Nothing || start == Unparsable || (start.Parsed? && !start.value.JObj?)
    requires Answer(After(start, records), readable, address, version, hash)
    ensures readable && address.Some? && hash.Some?
    ensures i < |records| && records[i].writable && LastWord(records, i, address.value, version, hash.value)
  {
    AcceptedIffLastDecidingRecord(start, records, address.value, version, hash.value);
    i :| 0 <= i < |records| && LastWord(records, i, address.value, version, hash.value);
  }

  /** With working storage, recording one address never changes the answer for another. */
  lemma {:induction false} OtherAddressesKeepTheirAnswer(stored: Stored, r: Record, address: string, version: string,
      hash: string)
    requires r.readable && !For(r, address)
    ensures Answer(AfterRecord(stored, r), true, Some(address), version, Some(hash))
            == Answer(stored, true, Some(address), version, Some(hash))
  {
    OneRecord(stored, r, address, version, hash);
  }

  /** Exactly when recording one address changes the answer for another: the read failed, the write did not, and the
      answer was yes. */
  lemma {:induction false} RecordChangesOthersIff(stored: Stored, r: Record, address: string, version: string,
      hash: string)
    requires !For(r, address)
    ensures Answer(AfterRecord(stored, r), true, Some(address), version, Some(hash))
            != Answer(stored, true, Some(address), version, Some(hash))
            <==> r.writable && !r.readable && Answer(stored, true, Some(address), version, Some(hash))
  {
    OneRecord(stored, r, address, version, hash);
  }

  /** Without it, it can: a read that fails and a write that succeeds forget everyone else. */
  lemma {:induction false} FailedReadForgetsOthers(stored: Stored, r: Record, address: string, version: string,
      hash: string)
    requires !r.readable && r.writable && !For(r, address)
    ensures !Answer(AfterRecord(stored, r), true, Some(address), version, Some(hash))
  {
    OneRecord(stored, r, address, version, hash);
  }
}
