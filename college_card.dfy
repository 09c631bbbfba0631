/** The display helpers of a college's card and its bookmark button. */
module CollegeCard {
  import opened JsMath
  import opened JsString
  import opened Student
  import opened Catalog
  import opened StudentContext

  /** The link text: the first "https://" removed, then the first "www." removed. */
  function DisplayWebsite(website: string): (r: string)
    ensures |r| <= |website|
  {
    ReplaceFirst(ReplaceFirst(website, "https://", ""), "www.", "")
  }

  /** The usual address loses exactly its "https://www." prefix. */
  lemma DisplayDropsSchemeAndWww(rest: string)
    ensures DisplayWebsite("https://www." + rest) == rest
  {
    var w := "https://www." + rest;
    assert OccursAt(w, "https://", 0);
    var once := ReplaceFirst(w, "https://", "");
    assert once == "www." + rest by {
      assert w[8..] == "www." + rest;
    }
    assert OccursAt(once, "www.", 0);
    assert once[4..] == rest;
  }

  /** Only the first occurrence of each is removed: a later "www." stays. */
  lemma DisplayKeepsLaterOccurrences(host: string, rest: string)
    ensures DisplayWebsite("https://www." + host + "www." + rest) == host + "www." + rest
  {
    assert "https://www." + host + "www." + rest == "https://www." + (host + "www." + rest);
    DisplayDropsSchemeAndWww(host + "www." + rest);
  }

  /** An address with neither part is shown as it is. */
  lemma DisplayUnchangedWithoutPrefixes(website: string)
    requires !Includes(website, "https://") && !Includes(website, "www.")
    ensures DisplayWebsite(website) == website
  {
  }

  /** `streams.slice(0, 3)`: at most the first three streams, in their order. */
  function ShownStreams(streams: seq<Stream>): (r: seq<Stream>)
    ensures |r| == Min(3, |streams|)
    ensures forall i :: 0 <= i < |r| ==> r[i] == streams[i]
  {
    streams[..Min(3, |streams|)]
  }

  /** The state badge: only AP reads "Andhra Pradesh". */
  function StateLabel(state: Region): (r: string)
    ensures r == "Andhra Pradesh" <==> state == AP
    ensures r == "Telangana" <==> state == TG
  {
    if state == AP then "Andhra Pradesh" else assert state == TG; "Telangana"
  }

  /** The requirement badges in display order: the minimum percentage, then each accepted exam. */
  function RequirementBadges(college: College): (r: seq<string>)
    ensures |r| <= 4
    ensures "Min" in r <==> Truthy(college.minPercentage)
    ensures "JEE" in r <==> college.acceptsJEE
    ensures "EAPCET" in r <==> college.acceptsEAPCET
    ensures "EMCET" in r <==> college.acceptsEMCET
  {
    (if Truthy(college.minPercentage) then ["Min"] else []) +
    (if college.acceptsJEE then ["JEE"] else []) +
    (if college.acceptsEAPCET then ["EAPCET"] else []) +
    (if college.acceptsEMCET then ["EMCET"] else [])
  }

  /** The requirements row is rendered iff any of its badges is. */
  function ShowsRequirements(college: College): (b: bool)
    ensures b <==> RequirementBadges(college) != []
    ensures b <==> Truthy(college.minPercentage) || college.acceptsJEE || college.acceptsEAPCET || college.acceptsEMCET
  {
    Truthy(college.minPercentage) || college.acceptsJEE || college.acceptsEAPCET || college.acceptsEMCET
  }

  /** The bookmark icon is filled iff this college's id is bookmarked. */
  function ShowsMarked(store: StudentStore, college: College): (b: bool)
    reads store
    ensures b <==> Marked(store.bookmarks, college.id)
  {
    store.IsCollegeMarked(college.id)
  }

  /** The bookmark button toggles this college's id, and only it; the icon flips. */
  method ClickBookmark(store: StudentStore, college: College, now: Timestamp)
    modifies store
    ensures store.bookmarks == Toggle(old(store.bookmarks), college.id, now)
    ensures ShowsMarked(store, college) == !old(ShowsMarked(store, college))
    ensures forall id :: id != college.id ==> (Marked(store.bookmarks, id) <==> old(Marked(store.bookmarks, id)))
    ensures store.profile == old(store.profile) && store.isRegistered == old(store.isRegistered)
    ensures store.currentStep == old(store.currentStep) && store.isOnboarded == old(store.isOnboarded)
    ensures store.storage == old(store.storage)[MarkedCollegesKey := store.codec.encodeBookmarks(store.bookmarks)]
    ensures old(store.Synced()) ==> store.Synced()
  {
    ghost var before := store.bookmarks;
    store.ToggleMarkedCollege(college.id, now);
    forall id | id != college.id ensures Marked(store.bookmarks, id) <==> Marked(before, id) {
      ToggleFlips(before, college.id, now, id);
    }
  }
}
