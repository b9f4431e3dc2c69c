# twitter-staticker, modelled in Dafny

twitter-staticker turns exported Twitter JSON into static HTML pages. For each
input file it parses an array of tweet records and normalises every record into
one flat `Tweet`. A retweet shows the retweeted tweet's id, author, text and
original date. Any other record shows itself. The program counts the retweets,
assembles the `ViewData` for the page template and writes one HTML page per
input file. The template gets three helpers: a profile URL, a tweet permalink
and an external link.

This project models the decision logic of that program (all of it in `main.go`):

- `records.dfy` (module `Records`): the parsed records `TweetJSON`, `User`, `RT`,
  `RTUser` and `Fav`, the flat `Tweet`, and `ViewData`. Dates are an `Instant`
  carrying its zone offset. `TimeLib` holds the date library's parse and format
  calls as two uninterpreted function values.
- `helpers.dfy` (module `Helpers`): the date wrappers, `tweetTextTrim`,
  `makeUserURL`, `makeTweetURL` and `extLink`. The date wrappers compose
  uninterpreted library calls; what is proved of them is that the shown date
  depends only on the parsed instant. The four string helpers each have a
  partner: `RestoreNewlines` turns every `<br>` back into a newline, and so
  undoes the rewrite for text that holds no literal `<br>`; `StripBase` takes a
  URL base off; and `ParseExtLink` reads an anchor back into its href and text.
  The round trips are proved.
- `convert.dfy` (module `Convert`): the normalisation loop as the method
  `Normalize`, proved against the one-record function `NormalizePost`, and the
  view assembly. It also covers the per-file outcome of the loop body (the parse
  errors, the nil-record and empty-array panics, the view handed to the
  template) and the loop over files. That loop carries on past per-file errors
  and stops at the first fatal outcome the model knows of. The template step is
  not modelled (see "Left out").

Three places where the code does more than a plain reading of its design says:

- Building the view reads `jsonTweets[0]` (main.go:217). A file holding the
  empty JSON array `[]` therefore panics, and the whole run ends. The model makes
  this the fatal outcome `IndexOutOfRange`. A file that cannot be read ends the
  run too, through `os.Exit(1)`.
- The parsed array holds pointers (`[]*TweetJSON`, main.go:173). A JSON `null`
  element parses without error into a nil pointer, and `post.IsRetweet`
  (main.go:184) then panics. The model's records are `Option<TweetJSON>`, and
  `Normalize` stops at the first `None` with `NilDereference`. For the run this
  is the fatal outcome `NilRecord`.
- Only retweets are counted in the loop. `CountFav` is the length of the second
  parse of the same bytes (main.go:210, 220). It is not a counter kept while
  normalising.

`extLink` escapes nothing. Its anchor reads back into its href and text only
when the href holds no `"`. `ExtLinkAmbiguousWithQuote` shows two different (href, text) pairs
that give the same anchor text. Likewise, `tweetTextTrim` prints a newline and a
literal `<br>` the same way (`TrimMergesNewlineAndBreak`). So `RestoreAfterTrim`
needs text with no `<br>` in it.

## Model

| member | source | states |
|---|---|---|
| Helpers.TwitterTimeParse | main.go:124-129 | the parsed date is moved to the fixed zone UTC+9 and keeps the instant time.Parse gave |
| Helpers.FormatOnlyByInstant | main.go:119-129 | two date strings that parse to the same instant are shown alike, whatever zone they were written in |
| Helpers.TweetTextTrim | main.go:131-134 | the shown text has no newline left, and is 3 characters longer per newline replaced |
| Helpers.TrimWithoutNewline | main.go:131-134 | text without a newline is shown unchanged |
| Helpers.TrimConcat | main.go:132 | the rewrite distributes over concatenation: trim(a + b) = trim(a) + trim(b) |
| Helpers.RestoreAfterTrim | main.go:131-134 | for text holding no literal `<br>`, turning every `<br>` back into a newline recovers the text exactly |
| Helpers.TrimMergesNewlineAndBreak | main.go:132 | a newline and a literal `<br>` are shown alike, so the rewrite cannot be undone in general |
| Helpers.MakeUserURL | main.go:136-138 | the profile URL starts with the fixed user base, and taking the base off gives back the id |
| Helpers.MakeTweetURL | main.go:140-142 | the permalink starts with the fixed status base, and taking the base off gives back the id |
| Helpers.UserURLOnly | main.go:136-138 | a URL is the profile URL of id exactly when it is the user base followed by id, so ids and profile URLs correspond one to one |
| Helpers.TweetURLOnly | main.go:140-142 | a URL is the permalink of id exactly when it is the status base followed by id |
| Helpers.ExtLink | main.go:144-146 | an anchor built from an href without `"` is read back into exactly that href and text |
| Helpers.ParseExtLink | main.go:144-146 | whatever an anchor is read back into has an href free of `"`, and `<a href="` + href + `" rel="noreferrer noopener" target="_blank">` + text + `</a>` rebuilds that same anchor |
| Helpers.ExtLinkAmbiguousWithQuote | main.go:145 | with a `"` in the href, two different href/text pairs give the same anchor |
| Convert.NormalizePost | main.go:183-203 | one record's flat tweet keeps the record's flag and reply-to id, shows its formatted date, has no newline in its text, and has an empty origin date unless it is a retweet |
| Convert.RetweetShowsOriginal | main.go:184-192 | for a retweet, the id, all four author fields and the text come from the embedded retweeted tweet (text rewritten), and the origin date is its formatted date |
| Convert.PostShowsItself | main.go:193-200 | for any other record, the id, author fields and text come from the record and its own user, and the origin date is empty |
| Convert.OuterFieldsKept | main.go:201-203 | in both branches the retweet flag and reply-to id are the outer record's, unchanged, and the date is the outer record's formatted date |
| Convert.AuthorNeverMixed | main.go:184-203 | the four author fields are never mixed: they are all the retweeted author's when the flag is set and all the record's own user's otherwise; no newline survives in the text |
| Convert.Normalize | main.go:180-206 | the loop panics exactly when some record is nil, and then at the first nil one; otherwise one flat tweet per record, in the same order, each the normalisation of its record (so `tweets[i]` takes the provenance stated by the lemmas above), and the count equals the number of input retweets and is at most the number of tweets |
| Convert.BuildView | main.go:216-223 | a view exists exactly when there is at least one record; its date is the first record's date in UTC+9, CountTweet is the number of tweets, CountRT the counter, CountFav the number of favourites |
| Convert.FileOutcomeOf | main.go:167-223 | an unreadable file, a tweet parse error, a nil record, a favourite parse error, an empty array and a built view each happen on exactly their own inputs, in the source's order; a built view carries the normalised records, both counts and the favourites |
| Convert.ConvertFile | main.go:167-223 | the loop body for one file ends with the outcome described by FileOutcomeOf |
| Convert.BatchOutcomes | main.go:163-253 | files are handled in order; every outcome before the last is non-fatal, and the run ends early only at a fatal outcome |
| Convert.NoFatalRunsAll | main.go:174-214 | parse errors do not stop the run: when no file is unreadable, holds a nil record or is empty, every file gets its outcome |
| Convert.RunBatch | main.go:163-253 | the loop over files produces exactly the outcomes of BatchOutcomes |

## Left out

- `fileseek` and `checkDir` (main.go:92-117): directory listing, `os.Stat` and `MkdirAll` are OS calls.
- Reading files, opening and writing the output file, progress messages and the exit status (main.go:167-171, 243-254): I/O. A read failure appears only as the input `Unreadable`, and write failures are not modelled.
- `json.Unmarshal` (main.go:174, 210): a library call. Its two results are inputs of `FileInput`, each `None` when that parse failed. The model treats the two parses as independent, but they read the same bytes, and every field of `Fav` (main.go:36-42) is a `TweetJSON` field of the same type. So in the program the favourite parse cannot fail once the tweet parse has succeeded: `FavParseError` does not occur, and `CountFav` always equals `CountTweet`. The model does not state either fact.
- `[]*Fav` elements: a JSON `null` element is also a nil `*TweetJSON` in the first parse of the same bytes, and main.go:184 panics on it before main.go:210 runs. So nil `*Fav` elements never reach the template, and the model's favourites, plain values, lose nothing.
- The inside of `time.Parse` and `Time.Format` (main.go:119-129): library calls, kept uninterpreted in `TimeLib`. The dropped parse error is part of `TimeLib.parse`.
- Template parsing and execution (main.go:225-237): delegated to `text/template`. The model ends where the view is handed over, so a template error is not an outcome of the model. `ViewReady` counts as non-fatal only if the template parses. The `ParseFiles` error is dropped at main.go:231, so a missing or malformed `templates/tweets.html` (a relative path) leaves a nil template. `tpl.Execute` (main.go:233) on it can then end the run at the first file whose view is built, and the model does not capture that.
- The output path (main.go:164-165, 239-241): built on `filepath` calls whose behaviour is not visible here. Note that `strings.Replace(dirPath, "data", "", 1)` removes the first `data` anywhere in the path, not just a leading one, and it removes the constant, not the `-d` directory.
- Flag parsing (main.go:149-153) and the choice between `-f` and a directory scan (main.go:155-161).
- `*Tweet` pointers: each loop iteration allocates a fresh `Tweet` that is never changed after it is appended. The model uses values, so there is no aliasing to track.
- Go's `int` counters are unbounded `nat`s. They cannot overflow for any array that fits in memory.
