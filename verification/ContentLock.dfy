/** The leader lock: a file whose contents say who holds it.
  *
  * The contents are a hash in hexadecimal, a line feed, and what was hashed: who took the lock and
  * when, as JSON.  Anything else in the file counts as no lock at all.  Taking and releasing the lock
  * are one step each.
  */
module ContentLock {
  import opened Common

  newtype byte = x: int | 0 <= x < 256
  type Bytes = seq<byte>

  const LineFeed: byte := 10

  datatype LockInfo = LockInfo(holder: string, timestamp: int)

  /** The hash and the JSON encoding in use. */
  datatype Codec = Codec(hash: Bytes -> Bytes, json: LockInfo -> Bytes, decode: Bytes -> Option<LockInfo>)

  /** A hash is hexadecimal digits, and JSON reads back what it wrote. */
  ghost predicate ValidCodec(c: Codec) {
    && (forall b :: LineFeed !in c.hash(b))
    && (forall i :: c.decode(c.json(i)) == Some(i))
  }

  function LockBytes(c: Codec, info: LockInfo): Bytes {
    c.hash(c.json(info)) + [LineFeed] + c.json(info)
  }

  /** Where the first line feed is. */
  function FirstLF(b: Bytes): (r: Option<nat>)
    ensures r.Some? ==> r.value < |b| && b[r.value] == LineFeed && LineFeed !in b[..r.value]
    ensures r.None? ==> LineFeed !in b
  {
    if b == [] then None
    else if b[0] == LineFeed then Some(0)
    else
      var r := FirstLF(b[1..]);
      if r.None? then None
      else
        assert b[..r.value + 1] == [b[0]] + b[1..][..r.value];
        Some(r.value + 1)
  }

  /** The contents of the file say that the lock is held. */
  predicate Held(c: Codec, b: Bytes) {
    var lf := FirstLF(b);
    && lf.Some?
    && b[..lf.value] == c.hash(b[lf.value + 1..])
    && c.decode(b[lf.value + 1..]).Some?
  }

  lemma LineFeedAfterHash(hash: Bytes, rest: Bytes)
    requires LineFeed !in hash
    ensures FirstLF(hash + [LineFeed] + rest) == Some(|hash|)
  {
    var b := hash + [LineFeed] + rest;
    assert b[|hash|] == LineFeed;
    assert forall i | 0 <= i < |hash| :: b[i] == hash[i];
  }

  /** What Acquire writes is recognised as held, and says by whom and since when. */
  lemma WrittenIsHeld(c: Codec, info: LockInfo)
    requires ValidCodec(c)
    ensures Held(c, LockBytes(c, info))
    ensures c.decode(LockBytes(c, info)[|c.hash(c.json(info))| + 1..]) == Some(info)
  {
    var hash, json := c.hash(c.json(info)), c.json(info);
    LineFeedAfterHash(hash, json);
    assert LockBytes(c, info)[..|hash|] == hash && LockBytes(c, info)[|hash| + 1..] == json;
  }

  /** Two locks have the same contents only if the same holder took them in the same second. */
  lemma BytesTellInfoApart(c: Codec, i: LockInfo, j: LockInfo)
    requires ValidCodec(c)
    ensures LockBytes(c, i) == LockBytes(c, j) <==> i == j
  {
    if LockBytes(c, i) == LockBytes(c, j) {
      LineFeedAfterHash(c.hash(c.json(i)), c.json(i));
      LineFeedAfterHash(c.hash(c.json(j)), c.json(j));
      WrittenIsHeld(c, i);
      WrittenIsHeld(c, j);
    }
  }

  // ---------- the two operations ----------

  datatype File = Absent | Contents(bytes: Bytes)

  /** How far the calls of an Acquire get.  A write that fails leaves the first `left` bytes; the
    * truncation after it may fail too. */
  datatype AcquireEnv =
    | Cancelled
    | OpenFails
    | ReadFails
    | TruncateFails
    | WriteFails(left: nat, cleaned: bool)
    | Works

  datatype Acquired = Guard(data: Bytes) | NotAcquired | AcquireError

  function Read(f: File): Bytes {
    if f.Absent? then [] else f.bytes
  }

  /** The file after an Acquire, and what the caller gets. */
  function AcquireStep(c: Codec, f: File, info: LockInfo, env: AcquireEnv): (File, Acquired) {
    if env.Cancelled? || env.OpenFails? then (f, AcquireError)
    else if env.ReadFails? then (Contents(Read(f)), AcquireError)
    else if Held(c, Read(f)) then (f, NotAcquired)
    else if env.TruncateFails? && Read(f) != [] then (f, AcquireError)
    else if env.WriteFails? then
      var b := LockBytes(c, info);
      (Contents(if env.cleaned then [] else b[..if env.left < |b| then env.left else |b|]), AcquireError)
    else (Contents(LockBytes(c, info)), Guard(LockBytes(c, info)))
  }

  datatype ReleaseEnv = ReleaseOpenFails | ReleaseReadFails | ReleaseTruncateFails | ReleaseCloseFails | ReleaseWorks

  datatype Released = Released | Changed | ReleaseError

  /** The file after a Release by a guard with `data`; a missing file cannot be opened. */
  function ReleaseStep(f: File, data: Bytes, env: ReleaseEnv): (File, Released) {
    if env.ReleaseOpenFails? || f.Absent? || env.ReleaseReadFails? then (f, ReleaseError)
    else if f.bytes != data then (f, Changed)
    else if env.ReleaseTruncateFails? then (f, ReleaseError)
    else (Contents([]), if env.ReleaseCloseFails? then ReleaseError else Released)
  }

  class FSContentLock {
    const codec: Codec
    var file: File

    constructor (codec: Codec, file: File)
      ensures this.codec == codec && this.file == file
    {
      this.codec := codec;
      this.file := file;
    }

    method Acquire(info: LockInfo, env: AcquireEnv) returns (r: Acquired)
      modifies this
      ensures (file, r) == AcquireStep(codec, old(file), info, env)
    {
      if env.Cancelled? {
        return AcquireError;
      }
      var b := codec.json(info);
      var lockBytes := codec.hash(b) + [LineFeed] + b;
      if env.OpenFails? {
        return AcquireError;
      }
      var existed := file != Absent;
      if !existed {
        file := Contents([]);
      }
      if env.ReadFails? {
        return AcquireError;
      }
      var fileBytes := file.bytes;
      if |fileBytes| != 0 {
        var firstLF := FirstLF(fileBytes);
        if firstLF.Some? {
          var rest := fileBytes[firstLF.value + 1..];
          if fileBytes[..firstLF.value] == codec.hash(rest) {
            var existing := codec.decode(rest);
            if existing.Some? {
              return NotAcquired;
            }
          }
        }
        if env.TruncateFails? {
          return AcquireError;
        }
        file := Contents([]);
      }
      if env.WriteFails? {
        file := Contents(lockBytes[..if env.left < |lockBytes| then env.left else |lockBytes|]);
        if env.cleaned {
          file := Contents([]);
        }
        return AcquireError;
      }
      file := Contents(lockBytes);
      return Guard(lockBytes);
    }

    method Release(data: Bytes, env: ReleaseEnv) returns (r: Released)
      modifies this
      ensures (file, r) == ReleaseStep(old(file), data, env)
    {
      if env.ReleaseOpenFails? || file.Absent? {
        return ReleaseError;
      }
      if env.ReleaseReadFails? {
        return ReleaseError;
      }
      if file.bytes != data {
        return Changed;
      }
      if env.ReleaseTruncateFails? {
        return ReleaseError;
      }
      file := Contents([]);
      if env.ReleaseCloseFails? {
        return ReleaseError;
      }
      return Released;
    }
  }

  // ---------- runs ----------

  /** The file, and the guards that have been handed out and not yet let go of the lock. */
  datatype State = State(file: File, guards: map<nat, Bytes>)

  datatype Event =
    /** An Acquire; a guard it returns gets the number `guard`. */
    | Acquire(guard: nat, info: LockInfo, acquireEnv: AcquireEnv)
    /** A Release by a guard that still has the lock.  One that fails may be tried again. */
    | Release(guard: nat, releaseEnv: ReleaseEnv)
    /** A Release by anybody else, with any bytes: by a guard that has let go before, say. */
    | StrayRelease(data: Bytes, releaseEnv: ReleaseEnv)

  predicate Enabled(s: State, e: Event) {
    match e
    case Acquire(g, _, _) => g !in s.guards
    case Release(g, _) => g in s.guards
    case StrayRelease(_, _) => true
  }

  function Next(c: Codec, s: State, e: Event): State
    requires Enabled(s, e)
  {
    match e
    case Acquire(g, info, env) =>
      var (file, r) := AcquireStep(c, s.file, info, env);
      State(file, if r.Guard? then s.guards[g := r.data] else s.guards)
    case Release(g, env) =>
      var (file, r) := ReleaseStep(s.file, s.guards[g], env);
      State(file, if file == Contents([]) then s.guards - {g} else s.guards)
    case StrayRelease(data, env) =>
      s.(file := ReleaseStep(s.file, data, env).0)
  }

  ghost predicate IsRun(c: Codec, states: seq<State>, events: seq<Event>) {
    && |states| == |events| + 1
    && states[0].guards == map[]
    && forall i | 0 <= i < |events| :: Enabled(states[i], events[i]) && states[i + 1] == Next(c, states[i], events[i])
  }

  /** The guard that has the lock has exactly the contents of the file, which say that it is held;
    * so nobody else has it. */
  ghost predicate Exclusive(c: Codec, s: State) {
    && (forall g | g in s.guards :: s.file == Contents(s.guards[g]) && Held(c, s.guards[g]))
    && (forall g, h | g in s.guards && h in s.guards :: g == h)
  }

  /** A release by somebody else that gets through while a guard has the lock, with the guard's bytes. */
  predicate TakesAway(s: State, e: Event) {
    && e.StrayRelease? && s.guards != map[] && s.file == Contents(e.data)
    && (e.releaseEnv.ReleaseWorks? || e.releaseEnv.ReleaseCloseFails?)
  }

  lemma StrayReleaseExactly(c: Codec, s: State, e: Event)
    requires Exclusive(c, s) && e.StrayRelease?
    ensures Exclusive(c, Next(c, s, e)) <==> !TakesAway(s, e)
  {
    if TakesAway(s, e) {
      var g := AnyOf(s.guards.Keys);
      assert s.guards[g] == e.data && Held(c, e.data);
      assert FirstLF([]).None?;
    }
  }

  /** Exactly the releases that take the lock away break exclusion. */
  lemma StepKeepsExclusive(c: Codec, s: State, e: Event)
    requires ValidCodec(c) && Exclusive(c, s) && Enabled(s, e)
    ensures Exclusive(c, Next(c, s, e)) <==> !TakesAway(s, e)
  {
    if e.Acquire? {
      WrittenIsHeld(c, e.info);
    } else if e.StrayRelease? {
      StrayReleaseExactly(c, s, e);
    }
  }

  /** Over every run in which nobody takes the lock away, at most one guard has the lock, and the file is
    * exactly what it wrote. */
  lemma {:induction false} RunKeepsExclusive(c: Codec, states: seq<State>, events: seq<Event>, n: nat)
    requires ValidCodec(c) && IsRun(c, states, events) && n <= |events|
    requires forall i | 0 <= i < n :: !TakesAway(states[i], events[i])
    ensures Exclusive(c, states[n])
  {
    if n > 0 {
      RunKeepsExclusive(c, states, events, n - 1);
      assert Enabled(states[n - 1], events[n - 1]);
      StepKeepsExclusive(c, states[n - 1], events[n - 1]);
    }
  }

  /** The lock can be taken away: a release empties the file but fails to close it, the same holder takes
    * the lock again within the second, and then the first release is tried once more. */
  lemma RetriedReleaseTakesAway(c: Codec, info: LockInfo) returns (states: seq<State>, events: seq<Event>)
    requires ValidCodec(c)
    ensures IsRun(c, states, events)
    ensures events == [Acquire(0, info, Works), Release(0, ReleaseCloseFails), Acquire(1, info, Works),
                       StrayRelease(LockBytes(c, info), ReleaseWorks)]
    ensures TakesAway(states[3], events[3]) && Exclusive(c, states[3]) && !Exclusive(c, states[4])
  {
    var b := LockBytes(c, info);
    WrittenIsHeld(c, info);
    assert FirstLF([]).None?;
    events := [Acquire(0, info, Works), Release(0, ReleaseCloseFails), Acquire(1, info, Works),
               StrayRelease(b, ReleaseWorks)];
    states := [State(Absent, map[]), State(Contents(b), map[0 := b]), State(Contents([]), map[]),
               State(Contents(b), map[1 := b]), State(Contents([]), map[1 := b])];
    assert map[0 := b] - {0} == map[];
    assert Next(c, states[0], events[0]) == states[1] && Next(c, states[1], events[1]) == states[2];
    assert Next(c, states[2], events[2]) == states[3] && Next(c, states[3], events[3]) == states[4];
    StepKeepsExclusive(c, states[3], events[3]);
  }

  /** While a guard has the lock an Acquire never returns another, and changes nothing; and its own
    * Release never finds the file changed. */
  lemma HolderIsSafe(c: Codec, s: State, g: nat, info: LockInfo, acquireEnv: AcquireEnv, releaseEnv: ReleaseEnv)
    requires Exclusive(c, s) && g in s.guards
    ensures
      var (file, r) := AcquireStep(c, s.file, info, acquireEnv);
      file == s.file && !r.Guard?
    ensures ReleaseStep(s.file, s.guards[g], releaseEnv).1 != Changed
  {
  }

  /** What the answers mean.  A guard is handed out exactly if the lock was free and everything worked; "not
    * acquired" means that it is held; and "released" that it is free, which a failed close does not say. */
  lemma AnswersExactly(c: Codec, f: File, info: LockInfo, env: AcquireEnv, data: Bytes, releaseEnv: ReleaseEnv)
    requires ValidCodec(c) && data != []
    ensures
      var (f', r) := AcquireStep(c, f, info, env);
      && (r.Guard? <==> !Held(c, Read(f)) && (env.Works? || (env.TruncateFails? && Read(f) == [])))
      && (r.Guard? ==> f' == Contents(r.data) && r.data == LockBytes(c, info))
      && (r == NotAcquired <==> Held(c, Read(f)) && !env.Cancelled? && !env.OpenFails? && !env.ReadFails?)
      && (Held(c, Read(f)) ==> f' == f)
      && (!Held(c, Read(f)) && env.WriteFails? && env.cleaned ==> !Held(c, Read(f')))
      && (env.TruncateFails? && Read(f) != [] ==> f' == f)
    ensures
      var (f', r) := ReleaseStep(f, data, releaseEnv);
      && (r == Released <==> f == Contents(data) && releaseEnv.ReleaseWorks?)
      && (r == Released ==> !Held(c, Read(f')))
      && (r == Changed ==> f' == f && f != Contents(data))
  {
    assert FirstLF([]).None?;
  }

  /** A Release by somebody who took the lock as `info` while it is held as `holder` takes the lock
    * away from the holder exactly if both are the same holder in the same second. */
  lemma StrayReleaseIsHarmless(c: Codec, info: LockInfo, holder: LockInfo)
    requires ValidCodec(c)
    ensures
      var f := Contents(LockBytes(c, holder));
      ReleaseStep(f, LockBytes(c, info), ReleaseWorks).0 == f <==> info != holder
  {
    BytesTellInfoApart(c, info, holder);
    assert LockBytes(c, holder) != [];
  }
}
