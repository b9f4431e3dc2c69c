/** The body of the converter's main loop: normalising the parsed records into
    flat tweets while counting retweets, assembling the view data, and the
    per-file and per-batch outcomes that decide whether the run goes on. */
module Convert {
  import opened Records
  import opened Helpers

  // ---------------------------------------------------------------------------
  // One record

  /** The author fields of a flat tweet, taken together. */
  datatype Author = Author(id: string, name: string, screenName: string, image: string)

  function AuthorOf(t: Tweet): Author
  {
    Author(t.userID, t.userName, t.screenName, t.userImage)
  }

  /** The author of the record itself. */
  function OwnAuthor(post: TweetJSON): Author
  {
    Author(post.user.id, post.user.name, post.user.screenName, post.user.image)
  }

  /** The author of the retweeted tweet embedded in the record. */
  function RetweetedAuthor(post: TweetJSON): Author
  {
    var u := post.rt.rtUser;
    Author(u.userID, u.userName, u.screenName, u.image)
  }

  /** The flat tweet one loop iteration builds from a record. */
  function NormalizePost(lib: TimeLib, post: TweetJSON): (t: Tweet)
    ensures t.isRetweet == post.isRetweet && t.replyToID == post.replyToID
    ensures t.date == TwitterTimeFormat(lib, post.date)
    ensures '\n' !in t.text
    ensures !post.isRetweet ==> t.originDate == ""
  {
    Tweet(
      if post.isRetweet then post.rt.id else post.tweetID,
      post.replyToID,
      post.isRetweet,
      if post.isRetweet then post.rt.rtUser.userID else post.user.id,
      if post.isRetweet then post.rt.rtUser.userName else post.user.name,
      if post.isRetweet then post.rt.rtUser.screenName else post.user.screenName,
      if post.isRetweet then post.rt.rtUser.image else post.user.image,
      TweetTextTrim(if post.isRetweet then post.rt.text else post.text),
      TwitterTimeFormat(lib, post.date),
      if post.isRetweet then TwitterTimeFormat(lib, post.rt.date) else "")
  }

  /** A retweet shows the retweeted tweet: its id, author, text and date. */
  lemma RetweetShowsOriginal(lib: TimeLib, post: TweetJSON)
    requires post.isRetweet
    ensures var t := NormalizePost(lib, post);
      && t.tweetID == post.rt.id
      && AuthorOf(t) == RetweetedAuthor(post)
      && t.text == TweetTextTrim(post.rt.text)
      && t.originDate == TwitterTimeFormat(lib, post.rt.date)
  {
  }

  /** Any other record shows itself and has no origin date. */
  lemma PostShowsItself(lib: TimeLib, post: TweetJSON)
    requires !post.isRetweet
    ensures var t := NormalizePost(lib, post);
      && t.tweetID == post.tweetID
      && AuthorOf(t) == OwnAuthor(post)
      && t.text == TweetTextTrim(post.text)
      && t.originDate == ""
  {
  }

  /** Whichever branch ran, the flag, the reply target and the date are the record's own. */
  lemma OuterFieldsKept(lib: TimeLib, post: TweetJSON)
    ensures var t := NormalizePost(lib, post);
      && t.isRetweet == post.isRetweet
      && t.replyToID == post.replyToID
      && t.date == TwitterTimeFormat(lib, post.date)
  {
  }

  /** The author fields are never mixed: all four come from one of the two
      authors, and the one the flag picks. The shown text has no newline left. */
  lemma AuthorNeverMixed(lib: TimeLib, post: TweetJSON)
    ensures var t := NormalizePost(lib, post);
      && AuthorOf(t) == (if t.isRetweet then RetweetedAuthor(post) else OwnAuthor(post))
      && '\n' !in t.text
  {
  }

  // ---------------------------------------------------------------------------
  // The normalisation loop

  function CountRetweets(posts: seq<TweetJSON>): (n: nat)
    ensures n <= |posts|
  {
    if posts == [] then 0
    else CountRetweets(posts[..|posts| - 1]) + (if posts[|posts| - 1].isRetweet then 1 else 0)
  }

  /** The normalisation of every record, in order. */
  function NormalizeAll(lib: TimeLib, posts: seq<TweetJSON>): (tweets: seq<Tweet>)
  {
    seq(|posts|, i requires 0 <= i < |posts| => NormalizePost(lib, posts[i]))
  }

  /** The parsed array holds *TweetJSON: a JSON null element is a nil pointer, None here. */
  predicate NoNil(records: seq<Option<TweetJSON>>)
  {
    forall i :: 0 <= i < |records| ==> records[i].Some?
  }

  /** The records the pointers point to. */
  function Deref(records: seq<Option<TweetJSON>>): (posts: seq<TweetJSON>)
    requires NoNil(records)
  {
    seq(|records|, i requires 0 <= i < |records| && NoNil(records) => records[i].value)
  }

  /** Appending one record appends its normalisation and counts it if it is a retweet. */
  lemma NormalizeStep(lib: TimeLib, records: seq<Option<TweetJSON>>, k: nat)
    requires k < |records| && NoNil(records[..k]) && records[k].Some?
    ensures NoNil(records[..k + 1])
    ensures Deref(records[..k + 1]) == Deref(records[..k]) + [records[k].value]
    ensures NormalizeAll(lib, Deref(records[..k + 1]))
         == NormalizeAll(lib, Deref(records[..k])) + [NormalizePost(lib, records[k].value)]
    ensures CountRetweets(Deref(records[..k + 1]))
         == CountRetweets(Deref(records[..k])) + (if records[k].value.isRetweet then 1 else 0)
  {
    assert records[..k + 1][..k] == records[..k];
    var posts := Deref(records[..k + 1]);
    assert posts == Deref(records[..k]) + [records[k].value];
    assert posts[..|posts| - 1] == Deref(records[..k]);
  }

  /** How the loop over one file's records ends. */
  datatype Normalized =
    | NilDereference(index: nat)   // post.IsRetweet on a nil pointer: the process panics
    | Normalized(tweets: seq<Tweet>, countRt: nat)

  /** main.go:180-206: one flat tweet per record, in order, and the retweet count;
      the first nil record stops the loop with a panic. */
  method Normalize(lib: TimeLib, jsonTweets: seq<Option<TweetJSON>>) returns (r: Normalized)
    ensures r.NilDereference? <==> !NoNil(jsonTweets)
    ensures r.NilDereference? ==>
      r.index < |jsonTweets| && jsonTweets[r.index].None? && NoNil(jsonTweets[..r.index])
    ensures r.Normalized? ==>
      && |r.tweets| == |jsonTweets|
      && r.tweets == NormalizeAll(lib, Deref(jsonTweets))
      && r.countRt == CountRetweets(Deref(jsonTweets))
      && r.countRt <= |r.tweets|
  {
    var tweets: seq<Tweet> := [];
    var countRt: nat := 0;
    for k := 0 to |jsonTweets|
      invariant NoNil(jsonTweets[..k])
      invariant tweets == NormalizeAll(lib, Deref(jsonTweets[..k]))
      invariant countRt == CountRetweets(Deref(jsonTweets[..k]))
    {
      if jsonTweets[k].None? {
        return NilDereference(k);
      }
      var post := jsonTweets[k].value;
      var tweet := EmptyTweet;
      if post.isRetweet {
        tweet := tweet.(
          tweetID := post.rt.id,
          userID := post.rt.rtUser.userID,
          userName := post.rt.rtUser.userName,
          screenName := post.rt.rtUser.screenName,
          userImage := post.rt.rtUser.image,
          text := TweetTextTrim(post.rt.text),
          originDate := TwitterTimeFormat(lib, post.rt.date));
        countRt := countRt + 1;
      } else {
        tweet := tweet.(
          tweetID := post.tweetID,
          userID := post.user.id,
          userName := post.user.name,
          screenName := post.user.screenName,
          userImage := post.user.image,
          text := TweetTextTrim(post.text));
      }
      tweet := tweet.(isRetweet := post.isRetweet, replyToID := post.replyToID, date := TwitterTimeFormat(lib, post.date));
      assert tweet == NormalizePost(lib, post);
      NormalizeStep(lib, jsonTweets, k);
      tweets := tweets + [tweet];
    }
    assert jsonTweets[..|jsonTweets|] == jsonTweets;
    r := Normalized(tweets, countRt);
  }

  // ---------------------------------------------------------------------------
  // The view data

  /** main.go:216-223. The date is read from jsonTweets[0]; on an empty array that
      index panics, which is None here. */
  function BuildView(lib: TimeLib, jsonTweets: seq<TweetJSON>, tweets: seq<Tweet>, countRt: nat,
                     favs: seq<Fav>): (r: Option<ViewData>)
    ensures r.Some? <==> |jsonTweets| > 0
    ensures r.Some? ==>
      && r.value.date == TwitterTimeParse(lib, jsonTweets[0].date)
      && r.value.date.offsetSeconds == JSTOffset
      && r.value.countTweet == |tweets| && r.value.tweets == tweets
      && r.value.countRT == countRt
      && r.value.countFav == |favs| && r.value.favs == favs
  {
    if |jsonTweets| == 0 then None
    else Some(ViewData(TwitterTimeParse(lib, jsonTweets[0].date), |tweets|, countRt, |favs|, tweets, favs))
  }

  // ---------------------------------------------------------------------------
  // One file

  /** What reading a file and the two json.Unmarshal calls produced. */
  datatype FileInput =
    | Unreadable
    | Read(tweets: Option<seq<Option<TweetJSON>>>, favs: Option<seq<Fav>>)

  /** How the loop body ends for one file, up to handing the view to the template. */
  datatype FileOutcome =
    | ReadError         // ioutil.ReadFile failed: os.Exit(1)
    | TweetParseError   // reported, next file
    | NilRecord         // a null element dereferenced at line 184: the process panics
    | FavParseError     // reported, next file
    | IndexOutOfRange   // jsonTweets[0] on an empty array: the process panics
    | ViewReady(view: ViewData)

  /** Outcomes that end the whole run. */
  predicate Fatal(o: FileOutcome)
  {
    o.ReadError? || o.NilRecord? || o.IndexOutOfRange?
  }

  function FileOutcomeOf(lib: TimeLib, input: FileInput): (o: FileOutcome)
    ensures input.Unreadable? <==> o.ReadError?
    ensures input.Read? && input.tweets.None? <==> o.TweetParseError?
    ensures input.Read? && input.tweets.Some? && !NoNil(input.tweets.value) <==> o.NilRecord?
    ensures o.FavParseError? <==>
      input.Read? && input.tweets.Some? && NoNil(input.tweets.value) && input.favs.None?
    ensures o.IndexOutOfRange? <==> input.Read? && input.tweets == Some([]) && input.favs.Some?
    ensures o.ViewReady? ==>
      && input.Read? && input.tweets.Some? && NoNil(input.tweets.value) && input.favs.Some?
      && var posts := Deref(input.tweets.value);
      && |posts| > 0
      && o.view.tweets == NormalizeAll(lib, posts)
      && o.view.countTweet == |posts|
      && o.view.countRT == CountRetweets(posts)
      && o.view.countRT <= o.view.countTweet
      && o.view.countFav == |input.favs.value| && o.view.favs == input.favs.value
      && o.view.date == TwitterTimeParse(lib, posts[0].date)
  {
    match input
    case Unreadable => ReadError
    case Read(None, _) => TweetParseError
    case Read(Some(records), favs) =>
      if !NoNil(records) then NilRecord
      else if favs.None? then FavParseError
      else
        var posts := Deref(records);
        match BuildView(lib, posts, NormalizeAll(lib, posts), CountRetweets(posts), favs.value)
        case None => IndexOutOfRange
        case Some(view) => ViewReady(view)
  }

  /** main.go:167-223 for one file. */
  method ConvertFile(lib: TimeLib, input: FileInput) returns (outcome: FileOutcome)
    ensures outcome == FileOutcomeOf(lib, input)
  {
    if input.Unreadable? {
      return ReadError;
    }
    if input.tweets.None? {
      return TweetParseError;
    }
    var jsonTweets := input.tweets.value;
    var normalized := Normalize(lib, jsonTweets);
    if normalized.NilDereference? {
      return NilRecord;
    }
    if input.favs.None? {
      return FavParseError;
    }
    var view := BuildView(lib, Deref(jsonTweets), normalized.tweets, normalized.countRt, input.favs.value);
    if view.None? {
      return IndexOutOfRange;
    }
    outcome := ViewReady(view.value);
  }

  // ---------------------------------------------------------------------------
  // The batch

  /** The outcomes of a run over files, in order, up to and including the first fatal one. */
  function BatchOutcomes(lib: TimeLib, files: seq<FileInput>): (log: seq<FileOutcome>)
    ensures |log| <= |files|
    ensures forall i :: 0 <= i < |log| ==> log[i] == FileOutcomeOf(lib, files[i])
    ensures forall i :: 0 <= i < |log| - 1 ==> !Fatal(log[i])
    ensures |log| < |files| ==> |log| > 0 && Fatal(log[|log| - 1])
  {
    if files == [] then []
    else
      var o := FileOutcomeOf(lib, files[0]);
      if Fatal(o) then [o] else [o] + BatchOutcomes(lib, files[1..])
  }

  /** Per-file errors never stop the run: when no file is unreadable, holds a
      null record or is empty, every file gets an outcome, a parse error included. */
  lemma {:induction false} NoFatalRunsAll(lib: TimeLib, files: seq<FileInput>)
    requires forall i :: 0 <= i < |files| ==> !Fatal(FileOutcomeOf(lib, files[i]))
    ensures |BatchOutcomes(lib, files)| == |files|
  {
    if files != [] {
      assert !Fatal(FileOutcomeOf(lib, files[0]));
      NoFatalRunsAll(lib, files[1..]);
    }
  }

  /** One step of the run: the outcome of files[k] extends the outcomes so far. */
  lemma BatchStep(lib: TimeLib, files: seq<FileInput>, k: nat, log: seq<FileOutcome>)
    requires k < |files|
    requires log + BatchOutcomes(lib, files[k..]) == BatchOutcomes(lib, files)
    ensures var o := FileOutcomeOf(lib, files[k]);
      && (Fatal(o) ==> log + [o] == BatchOutcomes(lib, files))
      && (!Fatal(o) ==> (log + [o]) + BatchOutcomes(lib, files[k + 1..]) == BatchOutcomes(lib, files))
  {
    var o := FileOutcomeOf(lib, files[k]);
    assert files[k..][0] == files[k];
    assert files[k..][1..] == files[k + 1..];
    if !Fatal(o) {
      assert BatchOutcomes(lib, files[k..]) == [o] + BatchOutcomes(lib, files[k + 1..]);
    }
  }

  /** main.go:163-253: each file in turn, stopping at the first fatal outcome.
      The template step after the view is built is not modelled. */
  method RunBatch(lib: TimeLib, files: seq<FileInput>) returns (log: seq<FileOutcome>)
    ensures log == BatchOutcomes(lib, files)
  {
    log := [];
    var k := 0;
    assert files[0..] == files;
    while k < |files|
      invariant 0 <= k <= |files|
      invariant log + BatchOutcomes(lib, files[k..]) == BatchOutcomes(lib, files)
    {
      var outcome := ConvertFile(lib, files[k]);
      BatchStep(lib, files, k, log);
      log := log + [outcome];
      if Fatal(outcome) {
        return;
      }
      k := k + 1;
    }
    assert BatchOutcomes(lib, files[k..]) == [];
    assert log + [] == log;
  }
}
