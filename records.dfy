/** The records of the converter: what json.Unmarshal yields from an exported
    tweet file, the flat Tweet handed to the page template, and the view data. */
module Records {

  datatype Option<T> = None | Some(value: T)

  /** Author of a tweet as exported (`user`). */
  datatype User = User(id: string, name: string, screenName: string, image: string)

  /** Author of a retweeted tweet (`retweeted_status.user`). */
  datatype RTUser = RTUser(userID: string, userName: string, screenName: string, image: string)

  /** The embedded retweeted tweet (`retweeted_status`). */
  datatype RT = RT(id: string, rtUser: RTUser, text: string, date: string)

  /** One parsed element of the exported JSON array. A key absent from the JSON
      leaves its field at Go's zero value: the empty string, or false. */
  datatype TweetJSON = TweetJSON(
    tweetID: string,
    replyToID: string,
    isRetweet: bool,
    user: User,
    rt: RT,
    text: string,
    date: string)

  /** The same bytes parsed a second time, as favourites. */
  datatype Fav = Fav(tweetID: string, replyToID: string, user: User, text: string, date: string)

  /** The flat record the template renders. */
  datatype Tweet = Tweet(
    tweetID: string,
    replyToID: string,
    isRetweet: bool,
    userID: string,
    userName: string,
    screenName: string,
    userImage: string,
    text: string,
    date: string,
    originDate: string)

  /** Go's zero Tweet, what `new(Tweet)` allocates. */
  const EmptyTweet: Tweet := Tweet("", "", false, "", "", "", "", "", "", "")

  /** A point in time together with the zone offset (in seconds) it is shown in. */
  datatype Instant = Instant(unixSeconds: int, offsetSeconds: int)

  /** The date/time library the converter calls: `parse(layout, s)` stands for
      time.Parse (its error dropped, so a bad string gives some Instant), and
      `format(t, layout)` for Time.Format. Neither is interpreted here. */
  datatype TimeLib = TimeLib(parse: (string, string) -> Instant, format: (Instant, string) -> string)

  /** The data given to the page template. */
  datatype ViewData = ViewData(
    date: Instant,
    countTweet: nat,
    countRT: nat,
    countFav: nat,
    tweets: seq<Tweet>,
    favs: seq<Fav>)
}
