/**
 * The session store (StudentProvider): five state slices — the profile, the
 * bookmarked colleges, `isRegistered`, `currentStep` and `isOnboarded` —
 * each mirrored under its own key of a string key/value store standing in
 * for localStorage.
 */
module StudentContext {
  import opened Options
  import opened JsArray
  import opened JsNumber
  import opened Student

  /** The moment a college was bookmarked (`new Date()`), supplied by the caller. */
  type Timestamp = nat

  /** MarkedCollege. */
  datatype Bookmark = Bookmark(id: string, markedAt: Timestamp)

  /** `bookmarks.some(m => m.id === id)`. */
  predicate Marked(bookmarks: seq<Bookmark>, id: string) {
    exists i | 0 <= i < |bookmarks| :: bookmarks[i].id == id
  }

  /** No college id appears twice. */
  ghost predicate UniqueIds(bookmarks: seq<Bookmark>) {
    forall i, j | 0 <= i < j < |bookmarks| :: bookmarks[i].id != bookmarks[j].id
  }

  /** `bookmarks.filter(m => m.id !== id)`. */
  function Unmark(bookmarks: seq<Bookmark>, id: string): (r: seq<Bookmark>)
    ensures |r| <= |bookmarks|
    ensures forall m :: m in r <==> m in bookmarks && m.id != id
  {
    Filter(bookmarks, (m: Bookmark) => m.id != id)
  }

  /** The updater of `toggleMarkedCollege`: remove the id if present, else append it. */
  function Toggle(bookmarks: seq<Bookmark>, id: string, now: Timestamp): (r: seq<Bookmark>)
    ensures forall m :: m in r <==>
      if Marked(bookmarks, id) then m in bookmarks && m.id != id else m in bookmarks || m == Bookmark(id, now)
  {
    if Marked(bookmarks, id) then Unmark(bookmarks, id) else bookmarks + [Bookmark(id, now)]
  }

  /**
   * Toggling a present id removes every entry with that id and keeps the
   * other entries, each as often as before, in their original order.
   */
  lemma ToggleRemoves(bookmarks: seq<Bookmark>, id: string, now: Timestamp)
    requires Marked(bookmarks, id)
    ensures var r := Toggle(bookmarks, id, now);
      !Marked(r, id) &&
      (forall m :: m in r <==> m in bookmarks && m.id != id) &&
      (forall m: Bookmark :: m.id != id ==> multiset(r)[m] == multiset(bookmarks)[m]) &&
      IsSubsequence(r, bookmarks)
  {
    var p := (m: Bookmark) => m.id != id;
    var r := Filter(bookmarks, p);
    FilterIsSubsequence(bookmarks, p);
    forall m: Bookmark | m.id != id ensures multiset(r)[m] == multiset(bookmarks)[m] {
      FilterCounts(bookmarks, p, m);
    }
    forall i | 0 <= i < |r| ensures r[i].id != id {
      assert r[i] in r;
    }
  }

  /** Toggling an absent id appends exactly one entry, at the end. */
  lemma ToggleAppends(bookmarks: seq<Bookmark>, id: string, now: Timestamp)
    requires !Marked(bookmarks, id)
    ensures Toggle(bookmarks, id, now) == bookmarks + [Bookmark(id, now)]
    ensures Marked(Toggle(bookmarks, id, now), id)
  {
    var r := Toggle(bookmarks, id, now);
    assert r[|bookmarks|].id == id;
  }

  /** After a toggle the id is marked iff it was not; every other id keeps its status. */
  lemma ToggleFlips(bookmarks: seq<Bookmark>, id: string, now: Timestamp, other: string)
    ensures Marked(Toggle(bookmarks, id, now), id) == !Marked(bookmarks, id)
    ensures other != id ==> Marked(Toggle(bookmarks, id, now), other) == Marked(bookmarks, other)
  {
    if Marked(bookmarks, id) {
      ToggleRemoves(bookmarks, id, now);
      if other != id {
        RemovalKeepsOther(bookmarks, Toggle(bookmarks, id, now), id, other);
      }
    } else {
      ToggleAppends(bookmarks, id, now);
      if other != id {
        AppendKeepsOther(bookmarks, Bookmark(id, now), other);
      }
    }
  }

  lemma RemovalKeepsOther(bookmarks: seq<Bookmark>, r: seq<Bookmark>, id: string, other: string)
    requires forall m :: m in r <==> m in bookmarks && m.id != id
    requires other != id
    ensures Marked(r, other) == Marked(bookmarks, other)
  {
    if Marked(bookmarks, other) {
      var i :| 0 <= i < |bookmarks| && bookmarks[i].id == other;
      assert bookmarks[i] in r;
      var k :| 0 <= k < |r| && r[k] == bookmarks[i];
    }
    if Marked(r, other) {
      var k :| 0 <= k < |r| && r[k].id == other;
      assert r[k] in bookmarks;
      var i :| 0 <= i < |bookmarks| && bookmarks[i] == r[k];
    }
  }

  lemma AppendKeepsOther(bookmarks: seq<Bookmark>, entry: Bookmark, other: string)
    requires other != entry.id
    ensures Marked(bookmarks + [entry], other) == Marked(bookmarks, other)
  {
    var r := bookmarks + [entry];
    if Marked(bookmarks, other) {
      var i :| 0 <= i < |bookmarks| && bookmarks[i].id == other;
      assert r[i] == bookmarks[i];
    }
    if Marked(r, other) {
      var k :| 0 <= k < |r| && r[k].id == other;
      assert k < |bookmarks| && r[k] == bookmarks[k];
    }
  }

  /** Removing entries keeps the ids unique. */
  lemma UnmarkKeepsUnique(bookmarks: seq<Bookmark>, id: string)
    requires UniqueIds(bookmarks)
    ensures UniqueIds(Unmark(bookmarks, id))
  {
    FilterIsSubsequence(bookmarks, (m: Bookmark) => m.id != id);
    SubsequenceKeepsUnique(Unmark(bookmarks, id), bookmarks);
  }

  /** The tail of a list with unique ids has unique ids. */
  lemma TailKeepsUnique(bookmarks: seq<Bookmark>)
    requires bookmarks != [] && UniqueIds(bookmarks)
    ensures UniqueIds(bookmarks[1..])
  {
    var rest := bookmarks[1..];
    forall i, j | 0 <= i < j < |rest| ensures rest[i].id != rest[j].id {
      assert rest[i] == bookmarks[i + 1] && rest[j] == bookmarks[j + 1];
    }
  }

  /** Deleting entries, in any pattern, keeps the ids unique; what remains was there before. */
  lemma {:induction false} SubsequenceKeepsUnique(r: seq<Bookmark>, bookmarks: seq<Bookmark>)
    requires IsSubsequence(r, bookmarks) && UniqueIds(bookmarks)
    ensures UniqueIds(r)
    ensures forall m :: m in r ==> m in bookmarks
    decreases |bookmarks|
  {
    if r != [] {
      var rest := bookmarks[1..];
      TailKeepsUnique(bookmarks);
      if r[0] == bookmarks[0] && IsSubsequence(r[1..], rest) {
        SubsequenceKeepsUnique(r[1..], rest);
        forall i, j | 0 <= i < j < |r| ensures r[i].id != r[j].id {
          assert r[j] == r[1..][j - 1] && r[j] in rest;
          var k :| 0 <= k < |rest| && rest[k] == r[j];
          if i == 0 {
            assert bookmarks[k + 1] == r[j];
          } else {
            assert r[i] == r[1..][i - 1];
          }
        }
        forall m | m in r ensures m in bookmarks {
          if m != r[0] {
            assert m in r[1..];
          }
        }
      } else {
        SubsequenceKeepsUnique(r, rest);
      }
    }
  }

  /** If the ids are unique before a toggle, they are unique after it. */
  lemma ToggleKeepsUnique(bookmarks: seq<Bookmark>, id: string, now: Timestamp)
    requires UniqueIds(bookmarks)
    ensures UniqueIds(Toggle(bookmarks, id, now))
  {
    if Marked(bookmarks, id) {
      UnmarkKeepsUnique(bookmarks, id);
    } else {
      var r := Toggle(bookmarks, id, now);
      ToggleAppends(bookmarks, id, now);
      forall i, j | 0 <= i < j < |r| ensures r[i].id != r[j].id {
        if j == |bookmarks| {
          assert r[i] == bookmarks[i];
        } else {
          assert r[i] == bookmarks[i] && r[j] == bookmarks[j];
        }
      }
    }
  }

  /** Toggling an absent id twice gives back exactly the original list. */
  lemma ToggleTwiceRestores(bookmarks: seq<Bookmark>, id: string, now: Timestamp, later: Timestamp)
    requires !Marked(bookmarks, id)
    ensures Toggle(Toggle(bookmarks, id, now), id, later) == bookmarks
  {
    var p := (m: Bookmark) => m.id != id;
    ToggleAppends(bookmarks, id, now);
    FilterConcat(bookmarks, [Bookmark(id, now)], p);
    FilterAll(bookmarks, p);
    assert Filter([Bookmark(id, now)], p) == [];
  }

  /** Toggling any id twice leaves the set of marked ids as it was. */
  lemma ToggleTwiceSameIds(bookmarks: seq<Bookmark>, id: string, now: Timestamp, later: Timestamp, x: string)
    ensures Marked(Toggle(Toggle(bookmarks, id, now), id, later), x) == Marked(bookmarks, x)
  {
    var once := Toggle(bookmarks, id, now);
    ToggleFlips(bookmarks, id, now, x);
    ToggleFlips(once, id, later, x);
  }

  /** The updater of `updateStudentData`: a missing profile stays missing, else merge. */
  function UpdateProfile(prev: Option<Profile>, patch: Patch): (r: Option<Profile>)
    ensures prev.None? ==> r.None?
    ensures prev.Some? ==> r == Some(Merge(prev.value, patch))
  {
    match prev
    case None => None
    case Some(p) => Some(Merge(p, patch))
  }

  // ---------------------------------------------------------------------------
  // Persistence

  const StudentDataKey := "studentData"
  const MarkedCollegesKey := "markedColleges"
  const IsRegisteredKey := "isRegistered"
  const CurrentStepKey := "currentStep"
  const IsOnboardedKey := "isOnboarded"

  const SliceKeys: set<string> := {StudentDataKey, MarkedCollegesKey, IsRegisteredKey, IsOnboardedKey, CurrentStepKey}

  /**
   * `JSON.stringify` and `JSON.parse` for the two slices stored as JSON; a
   * decoder result `None` is a parse that throws.
   */
  datatype Codec = Codec(
    encodeProfile: Profile -> string,
    decodeProfile: string -> Option<Profile>,
    encodeBookmarks: seq<Bookmark> -> string,
    decodeBookmarks: string -> Option<seq<Bookmark>>)

  /** The codec behaves like JSON: encodings are never empty and decode back. */
  ghost predicate Lawful(codec: Codec) {
    (forall p :: codec.encodeProfile(p) != "" && codec.decodeProfile(codec.encodeProfile(p)) == Some(p)) &&
    (forall b :: codec.encodeBookmarks(b) != "" && codec.decodeBookmarks(codec.encodeBookmarks(b)) == Some(b))
  }

  /** `String(b)` for a boolean. */
  function BoolString(b: bool): string {
    if b then "true" else "false"
  }

  /** All five slices at one moment. */
  datatype Session = Session(
    profile: Option<Profile>,
    bookmarks: seq<Bookmark>,
    isRegistered: bool,
    currentStep: Number,
    isOnboarded: bool)

  /** The slices of a fresh session, which is also what logout resets them to. */
  const DefaultSession := Session(None, [], false, Num(1), false)

  datatype LoadError = MalformedProfile | MalformedBookmarks

  /** The outcome of loading the session: its slices, or the parse that threw. */
  datatype Load = Loaded(session: Session) | LoadFailed(error: LoadError)

  /** `localStorage.getItem(key)`, with `None` for null. */
  function Get(storage: map<string, string>, key: string): Option<string> {
    if key in storage then Some(storage[key]) else None
  }

  /** The step slice's initialiser: `saved ? parseInt(saved) : 1`. */
  function StoredStep(saved: Option<string>): (n: Number)
    ensures !Filled(saved) ==> n == Num(1)
    ensures forall x :: saved == Some(ShowNumber(x)) ==> n == x
  {
    assert forall x :: saved == Some(ShowNumber(x)) ==> ParseInt(ShowNumber(x)) == x by {
      forall x | saved == Some(ShowNumber(x)) ensures ParseInt(ShowNumber(x)) == x {
        ParseShowRoundTrip(x);
      }
    }
    if Filled(saved) then ParseInt(saved.value) else Num(1)
  }

  /**
   * The five `useState` initialisers, in declaration order: a JSON slice is
   * parsed when its stored text is truthy and a parse error aborts the load;
   * a flag is true iff its stored text is exactly "true"; the step is
   * `parseInt` of a truthy stored text, else 1.
   */
  function Hydrate(codec: Codec, storage: map<string, string>): (r: Load)
    ensures r.LoadFailed? <==>
      (Filled(Get(storage, StudentDataKey)) && codec.decodeProfile(storage[StudentDataKey]).None?) ||
      (Filled(Get(storage, MarkedCollegesKey)) && codec.decodeBookmarks(storage[MarkedCollegesKey]).None?)
    ensures r.LoadFailed? && Filled(Get(storage, StudentDataKey)) && codec.decodeProfile(storage[StudentDataKey]).None? ==>
      r.error == MalformedProfile
    ensures r.LoadFailed? && !(Filled(Get(storage, StudentDataKey)) && codec.decodeProfile(storage[StudentDataKey]).None?) ==>
      r.error == MalformedBookmarks
    ensures r.Loaded? && Filled(Get(storage, StudentDataKey)) ==>
      r.session.profile == codec.decodeProfile(storage[StudentDataKey])
    ensures r.Loaded? && Filled(Get(storage, MarkedCollegesKey)) ==>
      Some(r.session.bookmarks) == codec.decodeBookmarks(storage[MarkedCollegesKey])
    ensures r.Loaded? ==>
      (r.session.isRegistered <==> Get(storage, IsRegisteredKey) == Some("true")) &&
      (r.session.isOnboarded <==> Get(storage, IsOnboardedKey) == Some("true")) &&
      (!Filled(Get(storage, CurrentStepKey)) ==> r.session.currentStep == Num(1)) &&
      (Filled(Get(storage, CurrentStepKey)) ==> r.session.currentStep == ParseInt(storage[CurrentStepKey])) &&
      (!Filled(Get(storage, MarkedCollegesKey)) ==> r.session.bookmarks == []) &&
      (!Filled(Get(storage, StudentDataKey)) <==> r.session.profile == None)
  {
    var savedProfile := Get(storage, StudentDataKey);
    var savedBookmarks := Get(storage, MarkedCollegesKey);
    if Filled(savedProfile) && codec.decodeProfile(savedProfile.value).None? then
      LoadFailed(MalformedProfile)
    else if Filled(savedBookmarks) && codec.decodeBookmarks(savedBookmarks.value).None? then
      LoadFailed(MalformedBookmarks)
    else
      Loaded(Session(
        if Filled(savedProfile) then codec.decodeProfile(savedProfile.value) else None,
        if Filled(savedBookmarks) then codec.decodeBookmarks(savedBookmarks.value).value else [],
        Get(storage, IsRegisteredKey) == Some("true"),
        StoredStep(Get(storage, CurrentStepKey)),
        Get(storage, IsOnboardedKey) == Some("true")))
  }

  /**
   * The store holds each slice as its effect last wrote it; a missing profile
   * has no truthy stored text (the effect never writes null).
   */
  ghost predicate Mirrors(codec: Codec, s: Session, storage: map<string, string>) {
    (match s.profile
     case Some(p) => Get(storage, StudentDataKey) == Some(codec.encodeProfile(p))
     case None => !Filled(Get(storage, StudentDataKey))) &&
    Get(storage, MarkedCollegesKey) == Some(codec.encodeBookmarks(s.bookmarks)) &&
    Get(storage, IsRegisteredKey) == Some(BoolString(s.isRegistered)) &&
    Get(storage, CurrentStepKey) == Some(ShowNumber(s.currentStep)) &&
    Get(storage, IsOnboardedKey) == Some(BoolString(s.isOnboarded))
  }

  /**
   * Reloading from a store that mirrors a session gives that session back,
   * whenever the codec round-trips.
   */
  lemma ReloadMirrored(codec: Codec, s: Session, storage: map<string, string>)
    requires Lawful(codec)
    requires Mirrors(codec, s, storage)
    ensures Hydrate(codec, storage) == Loaded(s)
  {
    ParseShowRoundTrip(s.currentStep);
    assert ShowNumber(s.currentStep) != "";
    assert StoredStep(Get(storage, CurrentStepKey)) == s.currentStep;
    var savedProfile := Get(storage, StudentDataKey);
    var savedBookmarks := Get(storage, MarkedCollegesKey);
    var profile := if Filled(savedProfile) then codec.decodeProfile(savedProfile.value) else None;
    if s.profile.Some? {
      var text := codec.encodeProfile(s.profile.value);
      assert text != "" && codec.decodeProfile(text) == s.profile;
      assert savedProfile == Some(text);
      assert profile == s.profile;
    } else {
      assert profile == s.profile;
    }
    var text := codec.encodeBookmarks(s.bookmarks);
    assert text != "" && codec.decodeBookmarks(text) == Some(s.bookmarks);
    assert savedBookmarks == Some(text);
    assert Get(storage, IsRegisteredKey) == Some("true") <==> s.isRegistered;
    assert Get(storage, IsOnboardedKey) == Some("true") <==> s.isOnboarded;
  }

  /** Reloading after the five keys are removed gives the default session. */
  lemma ReloadWithoutKeys(codec: Codec, storage: map<string, string>)
    requires SliceKeys !! storage.Keys
    ensures Hydrate(codec, storage) == Loaded(DefaultSession)
  {
  }

  /**
   * The five persistence effects, run in declaration order after the first
   * render: the profile is written only when present, every other slice always.
   */
  function MountWrites(codec: Codec, s: Session, storage: map<string, string>): (r: map<string, string>)
    ensures r.Keys == storage.Keys + SliceKeys - (if s.profile.None? && StudentDataKey !in storage then {StudentDataKey} else {})
  {
    var written := if s.profile.Some? then storage[StudentDataKey := codec.encodeProfile(s.profile.value)] else storage;
    written[MarkedCollegesKey := codec.encodeBookmarks(s.bookmarks)]
           [IsRegisteredKey := BoolString(s.isRegistered)]
           [CurrentStepKey := ShowNumber(s.currentStep)]
           [IsOnboardedKey := BoolString(s.isOnboarded)]
  }

  /** The five storage keys are pairwise different. */
  lemma KeysDistinct()
    ensures StudentDataKey != MarkedCollegesKey && StudentDataKey != IsRegisteredKey
    ensures StudentDataKey != CurrentStepKey && StudentDataKey != IsOnboardedKey
    ensures MarkedCollegesKey != IsRegisteredKey && MarkedCollegesKey != CurrentStepKey
    ensures MarkedCollegesKey != IsOnboardedKey && IsRegisteredKey != CurrentStepKey
    ensures IsRegisteredKey != IsOnboardedKey && CurrentStepKey != IsOnboardedKey
  {
    assert StudentDataKey[0] == 's' && MarkedCollegesKey[0] == 'm' && CurrentStepKey[0] == 'c';
    assert IsRegisteredKey[0] == 'i' && IsOnboardedKey[0] == 'i';
    assert |IsRegisteredKey| == 12 && |IsOnboardedKey| == 11;
  }

  /** The effects' writes mirror any session whose missing profile has no truthy stored text. */
  lemma MountWritesMirror(codec: Codec, s: Session, storage: map<string, string>)
    requires s.profile.None? ==> !Filled(Get(storage, StudentDataKey))
    ensures Mirrors(codec, s, MountWrites(codec, s, storage))
  {
    KeysDistinct();
    var r := MountWrites(codec, s, storage);
    assert Get(r, StudentDataKey) == if s.profile.Some? then Some(codec.encodeProfile(s.profile.value)) else Get(storage, StudentDataKey);
    assert Get(r, MarkedCollegesKey) == Some(codec.encodeBookmarks(s.bookmarks));
    assert Get(r, IsRegisteredKey) == Some(BoolString(s.isRegistered));
    assert Get(r, CurrentStepKey) == Some(ShowNumber(s.currentStep));
    assert Get(r, IsOnboardedKey) == Some(BoolString(s.isOnboarded));
  }

  /** After the first render the store mirrors the hydrated session. */
  lemma MountMirrors(codec: Codec, storage: map<string, string>)
    requires Hydrate(codec, storage).Loaded?
    ensures Mirrors(codec, Hydrate(codec, storage).session, MountWrites(codec, Hydrate(codec, storage).session, storage))
  {
    var s := Hydrate(codec, storage).session;
    assert s.profile.None? ==> !Filled(Get(storage, StudentDataKey));
    MountWritesMirror(codec, s, storage);
  }

  /** Writing the profile key after changing the profile keeps the store mirrored. */
  lemma MirrorsWriteProfile(codec: Codec, s: Session, storage: map<string, string>, p: Profile)
    requires Mirrors(codec, s, storage)
    ensures Mirrors(codec, s.(profile := Some(p)), storage[StudentDataKey := codec.encodeProfile(p)])
  {
    KeysDistinct();
  }

  /** Writing the bookmarks key after changing the bookmarks keeps the store mirrored. */
  lemma MirrorsWriteBookmarks(codec: Codec, s: Session, storage: map<string, string>, bookmarks: seq<Bookmark>)
    requires Mirrors(codec, s, storage)
    ensures Mirrors(codec, s.(bookmarks := bookmarks), storage[MarkedCollegesKey := codec.encodeBookmarks(bookmarks)])
  {
    KeysDistinct();
  }

  /** Writing the registration flag's key after changing it keeps the store mirrored. */
  lemma MirrorsWriteRegistered(codec: Codec, s: Session, storage: map<string, string>, value: bool)
    requires Mirrors(codec, s, storage)
    ensures Mirrors(codec, s.(isRegistered := value), storage[IsRegisteredKey := BoolString(value)])
  {
    KeysDistinct();
  }

  /** Writing the step's key after changing the step keeps the store mirrored. */
  lemma MirrorsWriteStep(codec: Codec, s: Session, storage: map<string, string>, step: Number)
    requires Mirrors(codec, s, storage)
    ensures Mirrors(codec, s.(currentStep := step), storage[CurrentStepKey := ShowNumber(step)])
  {
    KeysDistinct();
  }

  /** Writing the onboarding flag's key after changing it keeps the store mirrored. */
  lemma MirrorsWriteOnboarded(codec: Codec, s: Session, storage: map<string, string>, value: bool)
    requires Mirrors(codec, s, storage)
    ensures Mirrors(codec, s.(isOnboarded := value), storage[IsOnboardedKey := BoolString(value)])
  {
    KeysDistinct();
  }

  /**
   * Storage after the profile effect has run for `profile`: its encoding
   * under studentData, or no write at all while the profile is null.
   */
  function ProfileWrite(codec: Codec, storage: map<string, string>, profile: Option<Profile>): (r: map<string, string>)
    ensures forall k :: k != StudentDataKey ==> Get(r, k) == Get(storage, k)
    ensures profile.Some? ==> Get(r, StudentDataKey) == Some(codec.encodeProfile(profile.value))
    ensures profile.None? ==> r == storage
  {
    if profile.Some? then storage[StudentDataKey := codec.encodeProfile(profile.value)] else storage
  }

  /**
   * Storage after `setIsOnboarded(true)`: "true" is written under
   * isOnboarded unless the flag was already set (React's bail-out).
   */
  function OnboardedWrite(storage: map<string, string>, wasOnboarded: bool): (r: map<string, string>)
    ensures forall k :: k != IsOnboardedKey ==> Get(r, k) == Get(storage, k)
    ensures !wasOnboarded ==> Get(r, IsOnboardedKey) == Some(BoolString(true))
    ensures wasOnboarded ==> r == storage
  {
    if wasOnboarded then storage else storage[IsOnboardedKey := BoolString(true)]
  }

  /**
   * StudentProvider's state and its localStorage. The persistence effects are
   * folded into the setters: each setter writes the key of the slice it
   * changed, as the effect on that slice does after the re-render.
   */
  class StudentStore {
    const codec: Codec
    var profile: Option<Profile>
    var bookmarks: seq<Bookmark>
    var isRegistered: bool
    var currentStep: Number
    var isOnboarded: bool
    var storage: map<string, string>

    function State(): Session
      reads this
    {
      Session(profile, bookmarks, isRegistered, currentStep, isOnboarded)
    }

    /** The store mirrors the in-memory slices. */
    ghost predicate Synced()
      reads this
    {
      Mirrors(codec, State(), storage)
    }

    /** Mounting the provider: hydrate every slice, then run the five effects once. */
    constructor (codec: Codec, saved: map<string, string>)
      requires Hydrate(codec, saved).Loaded?
      ensures this.codec == codec
      ensures State() == Hydrate(codec, saved).session
      ensures storage == MountWrites(codec, State(), saved)
      ensures Synced()
    {
      var s := Hydrate(codec, saved).session;
      this.codec := codec;
      profile, bookmarks, isRegistered, currentStep, isOnboarded :=
        s.profile, s.bookmarks, s.isRegistered, s.currentStep, s.isOnboarded;
      storage := MountWrites(codec, s, saved);
      new;
      MountMirrors(codec, saved);
    }

    /** `setStudentData`: replace the profile wholesale and persist it. */
    method SetStudentData(p: Profile)
      modifies this
      ensures profile == Some(p)
      ensures storage == old(storage)[StudentDataKey := codec.encodeProfile(p)]
      ensures bookmarks == old(bookmarks) && isRegistered == old(isRegistered)
      ensures currentStep == old(currentStep) && isOnboarded == old(isOnboarded)
      ensures old(Synced()) ==> Synced()
    {
      ghost var s0, st0 := State(), storage;
      profile := Some(p);
      storage := storage[StudentDataKey := codec.encodeProfile(p)];
      if Mirrors(codec, s0, st0) {
        MirrorsWriteProfile(codec, s0, st0, p);
      }
    }

    /**
     * `updateStudentData`: merge the patch into a present profile and persist
     * it; without a profile nothing changes and nothing is written.
     */
    method UpdateStudentData(patch: Patch)
      modifies this
      ensures profile == UpdateProfile(old(profile), patch)
      ensures storage == if old(profile).Some? then old(storage)[StudentDataKey := codec.encodeProfile(profile.value)] else old(storage)
      ensures bookmarks == old(bookmarks) && isRegistered == old(isRegistered)
      ensures currentStep == old(currentStep) && isOnboarded == old(isOnboarded)
      ensures old(Synced()) ==> Synced()
    {
      if profile.Some? {
        ghost var s0, st0 := State(), storage;
        var merged := Merge(profile.value, patch);
        profile := Some(merged);
        storage := storage[StudentDataKey := codec.encodeProfile(merged)];
        if Mirrors(codec, s0, st0) {
          MirrorsWriteProfile(codec, s0, st0, merged);
        }
      }
    }

    /** `toggleMarkedCollege`: toggle the id at time `now` and persist the list. */
    method ToggleMarkedCollege(id: string, now: Timestamp)
      modifies this
      ensures bookmarks == Toggle(old(bookmarks), id, now)
      ensures storage == old(storage)[MarkedCollegesKey := codec.encodeBookmarks(bookmarks)]
      ensures profile == old(profile) && isRegistered == old(isRegistered)
      ensures currentStep == old(currentStep) && isOnboarded == old(isOnboarded)
      ensures IsCollegeMarked(id) == !old(IsCollegeMarked(id))
      ensures old(UniqueIds(bookmarks)) ==> UniqueIds(bookmarks)
      ensures old(Synced()) ==> Synced()
    {
      ghost var before, s0, st0 := bookmarks, State(), storage;
      bookmarks := Toggle(bookmarks, id, now);
      storage := storage[MarkedCollegesKey := codec.encodeBookmarks(bookmarks)];
      if Mirrors(codec, s0, st0) {
        MirrorsWriteBookmarks(codec, s0, st0, bookmarks);
      }
      ToggleFlips(before, id, now, id);
      if UniqueIds(before) {
        ToggleKeepsUnique(before, id, now);
      }
    }

    /** `isCollegeMarked`: some bookmark has the id. */
    function IsCollegeMarked(id: string): (b: bool)
      reads this
      ensures b <==> exists i | 0 <= i < |bookmarks| :: bookmarks[i].id == id
    {
      Marked(bookmarks, id)
    }

    /**
     * `setIsRegistered`: React keeps an equal value without re-rendering, so
     * the key is written only when the flag changes.
     */
    method SetIsRegistered(value: bool)
      modifies this
      ensures isRegistered == value
      ensures storage == if value == old(isRegistered) then old(storage) else old(storage)[IsRegisteredKey := BoolString(value)]
      ensures profile == old(profile) && bookmarks == old(bookmarks)
      ensures currentStep == old(currentStep) && isOnboarded == old(isOnboarded)
      ensures old(Synced()) ==> Synced()
    {
      if value != isRegistered {
        ghost var s0, st0 := State(), storage;
        isRegistered := value;
        storage := storage[IsRegisteredKey := BoolString(value)];
        if Mirrors(codec, s0, st0) {
          MirrorsWriteRegistered(codec, s0, st0, value);
        }
      }
    }

    /** `setCurrentStep`, written only when the step changes (Object.is; NaN equals NaN). */
    method SetCurrentStep(step: Number)
      modifies this
      ensures currentStep == step
      ensures storage == if step == old(currentStep) then old(storage) else old(storage)[CurrentStepKey := ShowNumber(step)]
      ensures profile == old(profile) && bookmarks == old(bookmarks)
      ensures isRegistered == old(isRegistered) && isOnboarded == old(isOnboarded)
      ensures old(Synced()) ==> Synced()
    {
      if step != currentStep {
        ghost var s0, st0 := State(), storage;
        currentStep := step;
        storage := storage[CurrentStepKey := ShowNumber(step)];
        if Mirrors(codec, s0, st0) {
          MirrorsWriteStep(codec, s0, st0, step);
        }
      }
    }

    /** `setIsOnboarded`, written only when the flag changes. */
    method SetIsOnboarded(value: bool)
      modifies this
      ensures isOnboarded == value
      ensures storage == if value == old(isOnboarded) then old(storage) else old(storage)[IsOnboardedKey := BoolString(value)]
      ensures profile == old(profile) && bookmarks == old(bookmarks)
      ensures isRegistered == old(isRegistered) && currentStep == old(currentStep)
      ensures old(Synced()) ==> Synced()
    {
      if value != isOnboarded {
        ghost var s0, st0 := State(), storage;
        isOnboarded := value;
        storage := storage[IsOnboardedKey := BoolString(value)];
        if Mirrors(codec, s0, st0) {
          MirrorsWriteOnboarded(codec, s0, st0, value);
        }
      }
    }

    /**
     * `logout`: every slice back to its default and the five keys removed;
     * a reload then finds the default session.
     */
    method Logout()
      modifies this
      ensures State() == DefaultSession
      ensures storage == old(storage) - SliceKeys
      ensures Hydrate(codec, storage) == Loaded(State())
    {
      profile, bookmarks, isRegistered, isOnboarded, currentStep := None, [], false, false, Num(1);
      storage := storage - SliceKeys;
      ReloadWithoutKeys(codec, storage);
    }
  }
}
