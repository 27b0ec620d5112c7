/** The anonymous stories feed of the browser script (assets/js/main.js):
    the submit handler's checks, defaults and truncations, the on-device
    fallback list, and what the two listings render. */
module Stories {
  import opened Text
  import opened Escape

  const MaxStory := 4000
  const MaxFeeling := 100
  const MaxTz := 100
  const MaxLang := 20
  const MaxScreen := 100
  const MaxPlatform := 200
  const SnippetLength := 160
  const HomeCount := 5
  const DefaultFeeling := "Unknown"
  const Ellipsis := "\U{2026}"

  /** The alerts the submit handler raises before any write. */
  datatype Alert = StoryTooLong | FeelingTooLong

  /** The text `alert` shows for each. */
  function AlertMessage(a: Alert): string {
    match a
    case StoryTooLong => "Story is too long. Maximum 4000 characters."
    case FeelingTooLong => "Feeling field is too long."
  }

  /** What the submit handler decides before it collects metadata. */
  datatype Check =
    | Ignore                                 // empty text: silent return
    | Reject(alert: Alert)                   // alert, nothing written
    | Accept(story: string, feeling: string) // go on to persist

  /** Anonymous client metadata as the handler collects it (a value the
      browser does not offer is already the empty string). */
  datatype Metadata = Metadata(tz: string, lang: string, screen: string, platform: string)

  /** The document added to the remote `posts` collection; the server
      timestamp is not modelled. */
  datatype Doc = Doc(story: string, feeling: string, meta: Metadata)

  /** One entry of the on-device list: `{ text, feelings, date }`. */
  datatype StoredStory = StoredStory(text: string, feelings: string, date: string)

  /** A post read back from the remote collection. */
  datatype RemotePost = RemotePost(story: string, feeling: string)

  /** `value || 'Unknown'`: an empty feeling reads as "Unknown". */
  function FeelingOrDefault(f: string): (r: string)
    ensures r != []
    ensures f != [] ==> r == f
    ensures f == [] ==> r == DefaultFeeling
  {
    if f == [] then DefaultFeeling else f
  }

  /** The submit handler's checks, in source order: trim the text, default
      the feeling, return silently on empty text, then alert on an
      over-long text and then on an over-long feeling. The feeling is not
      trimmed. The 'Please enter your story.' alert that follows the silent
      return can never be reached, so it has no outcome here. */
  function CheckSubmission(rawText: string, rawFeeling: string): (r: Check)
    ensures r.Ignore? <==> AllSpace(Js, rawText)
    ensures r == Reject(StoryTooLong) <==> |Trim(Js, rawText)| > MaxStory
    ensures r == Reject(FeelingTooLong) <==>
      !AllSpace(Js, rawText) && |Trim(Js, rawText)| <= MaxStory && |FeelingOrDefault(rawFeeling)| > MaxFeeling
    ensures r.Accept? ==>
      r.story == Trim(Js, rawText) && r.feeling == FeelingOrDefault(rawFeeling)
      && 1 <= |r.story| <= MaxStory && Trimmed(Js, r.story)
      && 1 <= |r.feeling| <= MaxFeeling
  {
    var text := Trim(Js, rawText);
    var feeling := FeelingOrDefault(rawFeeling);
    if text == [] then Ignore
    else if |text| > MaxStory then Reject(StoryTooLong)
    else if |feeling| > MaxFeeling then Reject(FeelingTooLong)
    else Accept(text, feeling)
  }

  /** The four metadata truncations: each field becomes a prefix of
      itself no longer than its cap (timezone 100, language 20, screen 100,
      platform 200), exactly the cap when it was longer, and is left alone
      when it already fits. */
  function ClampMetadata(m: Metadata): (r: Metadata)
    ensures |r.tz| == Min(|m.tz|, MaxTz) && r.tz == m.tz[..|r.tz|]
    ensures |r.lang| == Min(|m.lang|, MaxLang) && r.lang == m.lang[..|r.lang|]
    ensures |r.screen| == Min(|m.screen|, MaxScreen) && r.screen == m.screen[..|r.screen|]
    ensures |r.platform| == Min(|m.platform|, MaxPlatform) && r.platform == m.platform[..|r.platform|]
  {
    Metadata(Truncate(m.tz, MaxTz), Truncate(m.lang, MaxLang),
             Truncate(m.screen, MaxScreen), Truncate(m.platform, MaxPlatform))
  }

  /** A field within its cap passes through the truncations unchanged. */
  lemma ClampMetadataKeepsShortFields(m: Metadata)
    ensures |m.tz| <= MaxTz ==> ClampMetadata(m).tz == m.tz
    ensures |m.lang| <= MaxLang ==> ClampMetadata(m).lang == m.lang
    ensures |m.screen| <= MaxScreen ==> ClampMetadata(m).screen == m.screen
    ensures |m.platform| <= MaxPlatform ==> ClampMetadata(m).platform == m.platform
  {
  }

  // ---------------------------------------------------------------------
  // Highlight snippets and rendered entries.

  /** The highlight snippet of a text: the characters shown and whether
      an ellipsis follows them. */
  datatype Snippet = Snippet(shown: string, more: bool)

  /** `text.slice(0, 160)` and `text.length > 160`: the first
      min(160, |text|) characters, with the ellipsis flag set exactly when
      something was cut off. */
  function MakeSnippet(text: string): (r: Snippet)
    ensures |r.shown| == Min(|text|, SnippetLength)
    ensures r.shown == text[..|r.shown|]
    ensures r.more <==> |text| > SnippetLength
    ensures !r.more ==> r.shown == text
  {
    Snippet(Truncate(text, SnippetLength), |text| > SnippetLength)
  }

  /** The markup of a snippet: the escaped characters, then `…` if cut. */
  function RenderSnippet(sn: Snippet): string {
    EscapeHtml(sn.shown) + (if sn.more then Ellipsis else [])
  }

  /** One rendered entry: its body and its feeling label, both already
      markup. The locale-formatted date is not modelled. */
  datatype Item = Item(body: string, feeling: string)

  /** What a listing shows: the "No stories yet" placeholder (with the
      "(offline)" qualifier on the fallback path) or the entries. */
  datatype View = Placeholder(offline: bool) | Items(items: seq<Item>)

  /** A home-page entry: the snippet, and the feeling defaulted. */
  function HomeItem(text: string, feeling: string): Item {
    Item(RenderSnippet(MakeSnippet(text)), EscapeHtml(FeelingOrDefault(feeling)))
  }

  /** A full-feed entry: the whole text and the given feeling label. */
  function FeedItem(text: string, feeling: string): Item {
    Item(EscapeHtml(text), EscapeHtml(feeling))
  }

  /** `loadStories().slice(0, 5)`: the first five entries, in order. */
  function HomeSlice(stored: seq<StoredStory>): (r: seq<StoredStory>)
    ensures |r| == Min(|stored|, HomeCount)
    ensures r == stored[..|r|]
  {
    Truncate(stored, HomeCount)
  }

  /** The home view on the fallback path (main.js, renderLatestStoriesHome's
      catch branch): the stored list's first five entries as snippets with
      the feeling defaulted, or the offline placeholder when there are none. */
  function HomeFallbackView(stored: seq<StoredStory>): (v: View)
    ensures v.Placeholder? <==> stored == []
    ensures v.Placeholder? ==> v.offline
    ensures v.Items? ==> |v.items| == Min(|stored|, HomeCount)
    ensures v.Items? ==> forall i :: 0 <= i < |v.items| ==> v.items[i] == HomeItem(stored[i].text, stored[i].feelings)
  {
    var top := HomeSlice(stored);
    if top == [] then Placeholder(true)
    else Items(seq(|top|, i requires 0 <= i < |top| => HomeItem(top[i].text, top[i].feelings)))
  }

  /** The home view on the remote path: the posts the collection returned
      (its query asks for the newest five), feeling defaulted. */
  function HomeRemoteView(posts: seq<RemotePost>): (v: View)
    ensures v.Placeholder? <==> posts == []
    ensures v.Placeholder? ==> !v.offline
    ensures v.Items? ==> |v.items| == |posts|
    ensures v.Items? ==> forall i :: 0 <= i < |posts| ==> v.items[i] == HomeItem(posts[i].story, posts[i].feeling)
  {
    if posts == [] then Placeholder(false)
    else Items(seq(|posts|, i requires 0 <= i < |posts| => HomeItem(posts[i].story, posts[i].feeling)))
  }

  /** The full feed on the fallback path (renderStories' catch branch):
      every stored entry, whole text, and the stored feeling as it is (this
      branch does not default it). */
  function FeedFallbackView(stored: seq<StoredStory>): (v: View)
    ensures v.Placeholder? <==> stored == []
    ensures v.Placeholder? ==> v.offline
    ensures v.Items? ==> |v.items| == |stored|
    ensures v.Items? ==> forall i :: 0 <= i < |stored| ==> v.items[i] == FeedItem(stored[i].text, stored[i].feelings)
  {
    if stored == [] then Placeholder(true)
    else Items(seq(|stored|, i requires 0 <= i < |stored| => FeedItem(stored[i].text, stored[i].feelings)))
  }

  /** The full feed on the remote path: the posts the collection returned
      (its query asks for the newest fifty), feeling defaulted. */
  function FeedRemoteView(posts: seq<RemotePost>): (v: View)
    ensures v.Placeholder? <==> posts == []
    ensures v.Placeholder? ==> !v.offline
    ensures v.Items? ==> |v.items| == |posts|
    ensures v.Items? ==> forall i :: 0 <= i < |posts| ==> v.items[i] == FeedItem(posts[i].story, FeelingOrDefault(posts[i].feeling))
  {
    if posts == [] then Placeholder(false)
    else Items(seq(|posts|, i requires 0 <= i < |posts| => FeedItem(posts[i].story, FeelingOrDefault(posts[i].feeling))))
  }

  /** No rendered field carries a markup character or a stray `&`. */
  predicate SafeItem(it: Item) {
    SafeMarkup(it.body) && SafeMarkup(it.feeling)
  }

  predicate SafeView(v: View) {
    v.Items? ==> forall i :: 0 <= i < |v.items| ==> SafeItem(v.items[i])
  }

  /** The ellipsis is neither markup nor an ampersand. */
  lemma SafeEllipsis()
    ensures SafeMarkup(Ellipsis)
  {
  }

  /** A rendered snippet is safe markup, and decoding it gives back the
      shown prefix followed by `…` exactly when the text was longer than 160. */
  lemma RenderSnippetSafe(text: string)
    ensures SafeMarkup(RenderSnippet(MakeSnippet(text)))
    ensures Unescape(RenderSnippet(MakeSnippet(text)))
      == text[..Min(|text|, SnippetLength)] + (if |text| > SnippetLength then Ellipsis else [])
  {
    var sn := MakeSnippet(text);
    var tail := if sn.more then Ellipsis else [];
    EscapeHtmlIsSafe(sn.shown);
    SafeEllipsis();
    assert SafeMarkup([]);
    SafeMarkupAppend(EscapeHtml(sn.shown), tail);
    EscapeHtmlThenUnescape(sn.shown, tail);
    assert Unescape(tail) == tail;
  }

  lemma HomeItemSafe(text: string, feeling: string)
    ensures SafeItem(HomeItem(text, feeling))
  {
    RenderSnippetSafe(text);
    EscapeHtmlIsSafe(FeelingOrDefault(feeling));
  }

  lemma FeedItemSafe(text: string, feeling: string)
    ensures SafeItem(FeedItem(text, feeling))
  {
    EscapeHtmlIsSafe(text);
    EscapeHtmlIsSafe(feeling);
  }

  /** Every listing, on either path, renders only escaped user text. */
  lemma ViewsAreSafe(stored: seq<StoredStory>, posts: seq<RemotePost>)
    ensures SafeView(HomeFallbackView(stored))
    ensures SafeView(HomeRemoteView(posts))
    ensures SafeView(FeedFallbackView(stored))
    ensures SafeView(FeedRemoteView(posts))
  {
    forall i | 0 <= i < |stored|
      ensures SafeItem(HomeItem(stored[i].text, stored[i].feelings))
      ensures SafeItem(FeedItem(stored[i].text, stored[i].feelings))
    {
      HomeItemSafe(stored[i].text, stored[i].feelings);
      FeedItemSafe(stored[i].text, stored[i].feelings);
    }
    forall i | 0 <= i < |posts|
      ensures SafeItem(HomeItem(posts[i].story, posts[i].feeling))
      ensures SafeItem(FeedItem(posts[i].story, FeelingOrDefault(posts[i].feeling)))
    {
      HomeItemSafe(posts[i].story, posts[i].feeling);
      FeedItemSafe(posts[i].story, FeelingOrDefault(posts[i].feeling));
    }
  }

  // ---------------------------------------------------------------------
  // The on-device fallback list and the submit handler.

  /** The browser's key-value store under the fixed key
      `msn_anonymous_stories_v1`. */
  class LocalStore {
    /** The list last serialised under the key. */
    var saved: seq<StoredStory>
    /** The key is absent, empty, or holds text that does not parse. */
    var unreadable: bool

    constructor (saved: seq<StoredStory>, unreadable: bool)
      ensures this.saved == saved && this.unreadable == unreadable
    {
      this.saved := saved;
      this.unreadable := unreadable;
    }

    /** `loadStories()`: the stored list, or the empty list when nothing
        readable is stored; never an error. */
    function Load(): (list: seq<StoredStory>)
      reads this
      ensures unreadable ==> list == []
      ensures !unreadable ==> list == saved
    {
      if unreadable then [] else saved
    }

    /** `saveStories(list)`: replaces the stored list; a write the browser
        refuses (`writable` false) is swallowed and changes nothing. */
    method Save(list: seq<StoredStory>, writable: bool)
      modifies this
      ensures writable ==> Load() == list
      ensures !writable ==> saved == old(saved) && unreadable == old(unreadable)
    {
      if writable {
        saved := list;
        unreadable := false;
      }
    }
  }

  /** What one press of the submit button leads to. */
  datatype Outcome =
    | Ignored                       // empty text: nothing happens
    | Alerted(message: string)      // over-long text or feeling: the alert shown
    | SentRemote(doc: Doc)          // added to the remote collection
    | SavedLocally(entry: StoredStory) // remote write failed: on-device fallback

  /** The submit handler (main.js, `initStories`). `remoteOk` says whether
      the remote collection accepted the document (false when it is not
      initialised or the write throws); `writable` whether the browser
      accepts the local write; `now` is the client clock's ISO timestamp.
      Nothing is written unless the checks pass; on the fallback path the
      new entry is put in front of the stored list and every earlier entry
      keeps its order. */
  method Submit(store: LocalStore, rawText: string, rawFeeling: string, meta: Metadata,
                remoteOk: bool, writable: bool, now: string) returns (o: Outcome)
    modifies store
    ensures CheckSubmission(rawText, rawFeeling).Ignore? ==> o == Ignored
    ensures CheckSubmission(rawText, rawFeeling).Reject? ==>
      o == Alerted(AlertMessage(CheckSubmission(rawText, rawFeeling).alert))
    ensures CheckSubmission(rawText, rawFeeling).Accept? && remoteOk ==>
      o == SentRemote(Doc(CheckSubmission(rawText, rawFeeling).story,
                          CheckSubmission(rawText, rawFeeling).feeling, ClampMetadata(meta)))
    ensures CheckSubmission(rawText, rawFeeling).Accept? && !remoteOk ==>
      o == SavedLocally(StoredStory(CheckSubmission(rawText, rawFeeling).story,
                                    CheckSubmission(rawText, rawFeeling).feeling, now))
    ensures o.SavedLocally? && writable ==> store.Load() == [o.entry] + old(store.Load())
    ensures !(o.SavedLocally? && writable) ==>
      store.saved == old(store.saved) && store.unreadable == old(store.unreadable)
  {
    var check := CheckSubmission(rawText, rawFeeling);
    if check.Ignore? {
      return Ignored;
    }
    if check.Reject? {
      return Alerted(AlertMessage(check.alert));
    }
    var clientTz, clientLang, screenStr, platform := meta.tz, meta.lang, meta.screen, meta.platform;
    if |clientTz| > MaxTz {
      clientTz := clientTz[..MaxTz];
    }
    if |clientLang| > MaxLang {
      clientLang := clientLang[..MaxLang];
    }
    if |screenStr| > MaxScreen {
      screenStr := screenStr[..MaxScreen];
    }
    if |platform| > MaxPlatform {
      platform := platform[..MaxPlatform];
    }
    if remoteOk {
      return SentRemote(Doc(check.story, check.feeling, Metadata(clientTz, clientLang, screenStr, platform)));
    }
    var entry := StoredStory(check.story, check.feeling, now);
    var stories := store.Load();
    stories := [entry] + stories;
    store.Save(stories, writable);
    o := SavedLocally(entry);
  }

  /** After an entry is put in front of the stored list, the home view
      shows it first, followed by the previous first four, in order. */
  lemma {:induction false} HomeAfterUnshift(list: seq<StoredStory>, e: StoredStory)
    ensures HomeSlice([e] + list) == [e] + HomeSlice(list)[..Min(|list|, HomeCount - 1)]
    ensures HomeFallbackView([e] + list).Items?
    ensures HomeFallbackView([e] + list).items[0] == HomeItem(e.text, e.feelings)
  {
    var l := [e] + list;
    var k := Min(|list|, HomeCount - 1);
    assert HomeSlice(l) == l[..k + 1];
    assert l[..k + 1] == [e] + list[..k];
    assert HomeSlice(list)[..k] == list[..k];
  }

  /** After an entry is put in front of the stored list, the full feed on
      the fallback path shows it first and then every earlier entry. */
  lemma FeedAfterUnshift(list: seq<StoredStory>, e: StoredStory)
    ensures FeedFallbackView([e] + list).Items?
    ensures |FeedFallbackView([e] + list).items| == |list| + 1
    ensures FeedFallbackView([e] + list).items[0] == FeedItem(e.text, e.feelings)
    ensures FeedFallbackView([e] + list).items[1..] ==
      (if list == [] then [] else FeedFallbackView(list).items)
  {
    var v := FeedFallbackView([e] + list);
    assert ([e] + list)[0] == e;
    assert forall i :: 0 <= i < |list| ==> ([e] + list)[i + 1] == list[i];
    if list != [] {
      assert v.items[1..] == FeedFallbackView(list).items;
    }
  }
}
