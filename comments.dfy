/**
 * The comment thread of one artwork: the rating renderer, the rating sent
 * with a comment, the length counter, and `commentsState` with the list
 * operations behind adding, editing and deleting a comment. Every write
 * goes through the authentication client's `fetchWithAuth`.
 */
module Comments {
  import opened Wrappers
  import opened JsText
  import opened Lists
  import Auth

  const ApiUrl := "http://localhost:3000/api"

  const NoArtworkSelected := "Aucune œuvre sélectionnée"
  const SignInToComment := "Veuillez vous connecter pour commenter"
  const EmptyComment := "Veuillez écrire un commentaire"
  const AddFailed := "Erreur lors de l'ajout du commentaire"
  const UpdateFailed := "Erreur lors de la modification"
  const DeleteFailed := "Erreur lors de la suppression"

  const NoRating := "<span class=\"no-rating\">Pas de note</span>"
  const FilledStar := "<i class=\"fas fa-star\"></i>"
  const EmptyStar := "<i class=\"far fa-star\"></i>"

  /** The longest comment the counter accepts without flagging it. */
  const MaxLength := 500

  datatype Comment = Comment(id: int, userId: int, userName: Option<string>, content: string, rating: Option<int>, createdAt: string)

  /** A stored rating is truthy unless it is `null` or `0`. */
  predicate RatingShown(rating: Option<int>) {
    rating.Some? && rating.value != 0
  }

  function Star(filled: bool): string {
    if filled then FilledStar else EmptyStar
  }

  /** The five icons for a rating: the i-th (counting from 1) is filled when i <= rating. */
  function StarRow(rating: int): seq<string> {
    seq(5, i => Star(i + 1 <= rating))
  }

  /** `stars.join('')`. */
  function Join(parts: seq<string>): string {
    if parts == [] then "" else parts[0] + Join(parts[1..])
  }

  function RatingValue(rating: int): string {
    " <span class=\"rating-value\">(" + IntToDecimal(rating) + "/5)</span>"
  }

  /** The number of filled stars: the rating, held between 0 and 5. */
  function Clamp(rating: int): nat {
    if rating <= 0 then 0 else if rating >= 5 then 5 else rating
  }

  /** `createRatingStars(rating)`. */
  method CreateRatingStars(rating: Option<int>) returns (html: string)
    ensures !RatingShown(rating) ==> html == NoRating
    ensures RatingShown(rating) ==> html == Join(StarRow(rating.value)) + RatingValue(rating.value)
  {
    if !RatingShown(rating) {
      return NoRating;
    }
    var r := rating.value;
    var stars: seq<string> := [];
    var i := 1;
    while i <= 5
      invariant 1 <= i <= 6
      invariant |stars| == i - 1
      invariant forall k :: 0 <= k < i - 1 ==> stars[k] == Star(k + 1 <= r)
    {
      if i <= r {
        stars := stars + [FilledStar];
      } else {
        stars := stars + [EmptyStar];
      }
      i := i + 1;
    }
    assert stars == StarRow(r);
    html := Join(stars) + RatingValue(r);
  }

  /** Exactly the first `Clamp(rating)` stars are filled, and the rest are empty. */
  lemma StarRowFilled(rating: int, i: int)
    requires 0 <= i < 5
    ensures StarRow(rating)[i] == FilledStar <==> i < Clamp(rating)
    ensures StarRow(rating)[i] == EmptyStar <==> Clamp(rating) <= i
  {
    assert FilledStar != EmptyStar;
  }

  /** The row is `Clamp(rating)` filled stars followed by the empty ones: five icons in all. */
  lemma StarRowShape(rating: int)
    ensures StarRow(rating) == seq(Clamp(rating), _ => FilledStar) + seq(5 - Clamp(rating), _ => EmptyStar)
  {
    var shape := seq(Clamp(rating), _ => FilledStar) + seq(5 - Clamp(rating), _ => EmptyStar);
    assert forall i :: 0 <= i < 5 ==> StarRow(rating)[i] == shape[i];
  }

  /**
   * `rating ? parseInt(rating) : null` for the form's rating text, as it
   * reaches the request body: `JSON.stringify` writes a `NaN` as `null`
   * too, so both collapse to `None`.
   */
  function SentRating(rating: Option<string>): (r: Option<int>)
    ensures rating == None || rating == Some("") ==> r == None
  {
    if rating.Some? && rating.value != "" then ParseInt(rating.value) else None
  }

  /** A rating chosen from the select (its value is the decimal text of a number) arrives as that number. */
  lemma SentRatingRoundTrip(n: int)
    ensures SentRating(Some(IntToDecimal(n))) == Some(n)
  {
    ParseIntRoundTrip(n);
  }

  /** Text that does not start with a digit, a sign or blank space after trimming sends no rating. */
  lemma SentRatingOfText(s: string)
    requires s != [] && !IsWhitespace(s[0]) && !IsDigit(s[0]) && s[0] != '-' && s[0] != '+'
    ensures SentRating(Some(s)) == None
  {
    assert TrimStart(s) == s;
  }

  function RatingJson(rating: Option<int>): Auth.Json {
    if rating.Some? then Auth.JInt(rating.value) else Auth.JNull
  }

  /** `JSON.stringify({ content, rating: ... })`. */
  function CommentBody(content: string, rating: Option<string>): Auth.Json {
    Auth.JObject([("content", Auth.JString(content)), ("rating", RatingJson(SentRating(rating)))])
  }

  /** The index of the first comment with this id, or -1 (`findIndex(c => c.id === id)`). */
  function FindIndex(comments: seq<Comment>, id: int): (k: int)
    ensures -1 <= k < |comments|
    ensures k == -1 <==> forall c :: c in comments ==> c.id != id
    ensures 0 <= k ==> comments[k].id == id && forall i :: 0 <= i < k ==> comments[i].id != id
  {
    if comments == [] then -1
    else if comments[0].id == id then 0
    else
      var k := FindIndex(comments[1..], id);
      assert forall c :: c in comments[1..] ==> c in comments;
      if k == -1 then -1 else k + 1
  }

  /** The list after `comments[index] = updated` for the first comment with that id, if any. */
  function ReplaceFirst(comments: seq<Comment>, id: int, updated: Comment): (r: seq<Comment>)
    ensures |r| == |comments|
  {
    var k := FindIndex(comments, id);
    if k == -1 then comments else comments[k := updated]
  }

  /** Replacing keeps the length; with no matching comment nothing changes, otherwise only the first match is replaced. */
  lemma ReplaceFirstSpec(comments: seq<Comment>, id: int, updated: Comment)
    ensures |ReplaceFirst(comments, id, updated)| == |comments|
    ensures (forall c :: c in comments ==> c.id != id) ==> ReplaceFirst(comments, id, updated) == comments
    ensures forall i :: 0 <= i < |comments| ==>
      ReplaceFirst(comments, id, updated)[i] ==
        (if comments[i].id == id && (forall j :: 0 <= j < i ==> comments[j].id != id) then updated else comments[i])
  {
    var k := FindIndex(comments, id);
    var r := ReplaceFirst(comments, id, updated);
    forall i | 0 <= i < |comments|
      ensures r[i] == (if comments[i].id == id && (forall j :: 0 <= j < i ==> comments[j].id != id) then updated else comments[i])
    {
      if k == -1 {
        assert comments[i] in comments;
      } else if i < k {
      } else if i > k {
        assert !(forall j :: 0 <= j < i ==> comments[j].id != id) by { assert comments[k].id == id; }
      }
    }
  }

  /** Editing a comment into one with the same id leaves it findable at the same place. */
  lemma ReplaceFirstKeepsPlace(comments: seq<Comment>, id: int, updated: Comment)
    requires updated.id == id
    ensures FindIndex(ReplaceFirst(comments, id, updated), id) == FindIndex(comments, id)
  {
    var k := FindIndex(comments, id);
    var r := ReplaceFirst(comments, id, updated);
    if k != -1 {
      assert r[k].id == id;
    }
  }

  predicate KeptAfterDelete(id: int, c: Comment) {
    c.id != id
  }

  /** `comments.filter(c => c.id !== id)`. */
  function WithoutComment(comments: seq<Comment>, id: int): (r: seq<Comment>)
    ensures |r| <= |comments|
  {
    Filter(comments, c => KeptAfterDelete(id, c))
  }

  /** Deleting drops every comment with the id, keeps every other one, and adds nothing. */
  lemma WithoutCommentMembers(comments: seq<Comment>, id: int)
    ensures forall c :: c in WithoutComment(comments, id) <==> c in comments && c.id != id
  {
    FilterKeeps(comments, c => KeptAfterDelete(id, c));
  }

  /** Deleting keeps the survivors in their order: it works part by part. */
  lemma WithoutCommentSplits(a: seq<Comment>, b: seq<Comment>, id: int)
    ensures WithoutComment(a + b, id) == WithoutComment(a, id) + WithoutComment(b, id)
  {
    FilterAppend(a, b, c => KeptAfterDelete(id, c));
  }

  /** Deleting an id twice is deleting it once. */
  lemma WithoutCommentIdempotent(comments: seq<Comment>, id: int)
    ensures WithoutComment(WithoutComment(comments, id), id) == WithoutComment(comments, id)
  {
    var once := WithoutComment(comments, id);
    WithoutCommentMembers(comments, id);
    FilterAll(once, c => KeptAfterDelete(id, c));
  }

  datatype Counter = Counter(text: string, error: bool)

  /** `updateCommentCounter()`: the text shown beside the input, and whether it is flagged. */
  function CommentCounter(input: string): (r: Counter)
    ensures r.error <==> |input| > MaxLength
  {
    Counter(IntToDecimal(|input|) + "/500", |input| > 500)
  }

  /** The counter's text starts with the length, which `parseInt` reads back. */
  lemma CounterReadsBack(input: string)
    ensures ParseInt(CommentCounter(input).text) == Some(|input|)
  {
    ParseIntOfDecimalPrefix(|input|, "/500");
  }

  /** How an operation on a comment ends, as the notification reports it. */
  datatype Outcome = Succeeded | Failed(message: string) | BrowserError

  /**
   * The outcome once `fetchWithAuth` has settled: its rejection, the
   * operation's own message for a response that is not ok, or the
   * browser's error when the network or the JSON decoding fails.
   */
  function Reported(fetched: Auth.FetchOutcome, failure: string, decoded: bool): Outcome {
    match fetched
      case Rejected(message) => Failed(message)
      case NetworkFailed => BrowserError
      case Returned(response) =>
        if !response.Ok() then Failed(failure) else if decoded then Succeeded else BrowserError
  }

  /** `currentArtworkId` is truthy: set, and not 0. */
  predicate ArtworkSelected(artworkId: Option<int>) {
    artworkId.Some? && artworkId.value != 0
  }

  function CommentsUrl(artworkId: int): string {
    ApiUrl + "/artworks/" + IntToDecimal(artworkId) + "/comments"
  }

  function CommentUrl(commentId: int): string {
    ApiUrl + "/comments/" + IntToDecimal(commentId)
  }

  function PostOptions(content: string, rating: Option<string>): Auth.Options {
    Auth.Options(map["method" := "POST"], Some(CommentBody(content, rating)), None)
  }

  function PutOptions(content: string, rating: Option<string>): Auth.Options {
    Auth.Options(map["method" := "PUT"], Some(CommentBody(content, rating)), None)
  }

  function DeleteOptions(): Auth.Options {
    Auth.Options(map["method" := "DELETE"], None, None)
  }

  /** Nothing but white space: what `content.trim()` leaves empty (see `AddGuardOrder`). */
  predicate Blank(s: string) {
    forall i :: 0 <= i < |s| ==> IsWhitespace(s[i])
  }

  /**
   * The checks `addComment` makes before sending anything, in their order:
   * the message of the first that fails, or `None` when all pass.
   */
  function AddGuard(artworkId: Option<int>, authenticated: bool, content: string): (r: Option<string>)
    ensures r == None <==> ArtworkSelected(artworkId) && authenticated && !Blank(content)
    ensures r.Some? ==> r.value in [NoArtworkSelected, SignInToComment, EmptyComment]
  {
    if !ArtworkSelected(artworkId) then Some(NoArtworkSelected)
    else if !authenticated then Some(SignInToComment)
    else if Blank(content) then Some(EmptyComment)
    else None
  }

  /** A comment is sent only for a selected artwork, a signed-in user and text that is not blank; otherwise the first failing check speaks. */
  lemma AddGuardOrder(artworkId: Option<int>, authenticated: bool, content: string)
    ensures AddGuard(artworkId, authenticated, content) == None <==>
      ArtworkSelected(artworkId) && authenticated && Trim(content) != ""
    ensures !ArtworkSelected(artworkId) ==> AddGuard(artworkId, authenticated, content) == Some(NoArtworkSelected)
    ensures ArtworkSelected(artworkId) && !authenticated ==> AddGuard(artworkId, authenticated, content) == Some(SignInToComment)
    ensures ArtworkSelected(artworkId) && authenticated && Trim(content) == "" ==>
      AddGuard(artworkId, authenticated, content) == Some(EmptyComment)
  {
    TrimSpec(content);
  }

  /** `commentsState`. */
  class CommentsState {
    var currentArtworkId: Option<int>
    var comments: seq<Comment>
    var isLoading: bool
    var isPosting: bool

    constructor ()
      ensures currentArtworkId == None && comments == [] && !isLoading && !isPosting
    {
      currentArtworkId := None;
      comments := [];
      isLoading := false;
      isPosting := false;
    }

    /** `loadComments(artworkId)`; `None` stands for the `NaN` of an unreadable id. */
    method LoadComments(artworkId: Option<int>, reply: Reply<seq<Comment>>)
      modifies this
      ensures !ArtworkSelected(artworkId) ==> unchanged(this)
      ensures ArtworkSelected(artworkId) ==>
        currentArtworkId == artworkId && !isLoading && isPosting == old(isPosting) &&
        comments == (if reply.Ok? then reply.payload else old(comments))
    {
      if !ArtworkSelected(artworkId) {
        return;
      }
      currentArtworkId := artworkId;
      isLoading := true;
      if reply.Ok? {
        comments := reply.payload;
      }
      isLoading := false;
    }

    /**
     * `addComment(content, rating)`: `answer` is what the network returns
     * to the POST, `created` the comment decoded from an ok response
     * (`None` when decoding fails), and `confirmLogout` the answer to the
     * dialog a 401 opens.
     */
    method AddComment(auth: Auth.AuthState, content: string, rating: Option<string>,
                      answer: Option<Auth.Response>, created: Option<Comment>, confirmLogout: bool)
      returns (outcome: Outcome)
      modifies this, auth
      ensures AddGuard(old(currentArtworkId), old(auth.isAuthenticated), content).Some? ==>
        outcome == Failed(AddGuard(old(currentArtworkId), old(auth.isAuthenticated), content).value) &&
        unchanged(this) && unchanged(auth)
      ensures AddGuard(old(currentArtworkId), old(auth.isAuthenticated), content) == None ==>
        outcome == Reported(Auth.Fetched(old(auth.HasToken()), answer), AddFailed, created.Some?) &&
        comments == (if outcome == Succeeded then [created.value] + old(comments) else old(comments)) &&
        currentArtworkId == old(currentArtworkId) && !isPosting && isLoading == old(isLoading) &&
        auth.sent == old(auth.sent) +
          (if old(auth.HasToken())
           then [Auth.Request(CommentsUrl(old(currentArtworkId).value), Auth.FinalOptions(old(auth.token).value, PostOptions(content, rating)))]
           else [])
      ensures AddGuard(old(currentArtworkId), old(auth.isAuthenticated), content) == None &&
              !Auth.LogsOut(old(auth.HasToken()), answer, confirmLogout) ==>
        auth.isAuthenticated == old(auth.isAuthenticated) && auth.token == old(auth.token) && auth.currentUser == old(auth.currentUser) &&
        auth.storedToken == old(auth.storedToken) && auth.storedUser == old(auth.storedUser)
      ensures AddGuard(old(currentArtworkId), old(auth.isAuthenticated), content) == None &&
              Auth.LogsOut(old(auth.HasToken()), answer, confirmLogout) ==>
        !auth.isAuthenticated && auth.token == None && auth.currentUser == None &&
        auth.storedToken == None && auth.storedUser == None
    {
      var refused := AddGuard(currentArtworkId, auth.isAuthenticated, content);
      if refused.Some? {
        return Failed(refused.value);
      }
      isPosting := true;
      var url := CommentsUrl(currentArtworkId.value);
      var fetched := auth.FetchWithAuth(url, PostOptions(content, rating), answer, confirmLogout);
      outcome := Reported(fetched, AddFailed, created.Some?);
      if outcome == Succeeded {
        comments := [created.value] + comments;
      }
      isPosting := false;
    }

    /** `updateComment(commentId, content, rating)`; `updated` is the comment decoded from an ok response. */
    method UpdateComment(auth: Auth.AuthState, commentId: int, content: string, rating: Option<string>,
                         answer: Option<Auth.Response>, updated: Option<Comment>, confirmLogout: bool)
      returns (outcome: Outcome)
      modifies this, auth
      ensures outcome == Reported(Auth.Fetched(old(auth.HasToken()), answer), UpdateFailed, updated.Some?)
      ensures comments == (if outcome == Succeeded then ReplaceFirst(old(comments), commentId, updated.value) else old(comments))
      ensures |comments| == |old(comments)|
      ensures currentArtworkId == old(currentArtworkId) && isLoading == old(isLoading) && isPosting == old(isPosting)
      ensures auth.sent == old(auth.sent) +
        (if old(auth.HasToken())
         then [Auth.Request(CommentUrl(commentId), Auth.FinalOptions(old(auth.token).value, PutOptions(content, rating)))]
         else [])
      ensures !Auth.LogsOut(old(auth.HasToken()), answer, confirmLogout) ==>
        auth.isAuthenticated == old(auth.isAuthenticated) && auth.token == old(auth.token) && auth.currentUser == old(auth.currentUser) &&
        auth.storedToken == old(auth.storedToken) && auth.storedUser == old(auth.storedUser)
      ensures Auth.LogsOut(old(auth.HasToken()), answer, confirmLogout) ==>
        !auth.isAuthenticated && auth.token == None && auth.currentUser == None &&
        auth.storedToken == None && auth.storedUser == None
    {
      var fetched := auth.FetchWithAuth(CommentUrl(commentId), PutOptions(content, rating), answer, confirmLogout);
      outcome := Reported(fetched, UpdateFailed, updated.Some?);
      if outcome == Succeeded {
        ReplaceFirstSpec(comments, commentId, updated.value);
        comments := ReplaceFirst(comments, commentId, updated.value);
      }
    }

    /** `deleteComment(commentId)`, with the answer to its confirmation dialog. */
    method DeleteComment(auth: Auth.AuthState, commentId: int, confirmed: bool,
                         answer: Option<Auth.Response>, confirmLogout: bool)
      returns (outcome: Option<Outcome>)
      modifies this, auth
      ensures !confirmed ==> outcome == None && unchanged(this) && unchanged(auth)
      ensures confirmed ==> outcome == Some(Reported(Auth.Fetched(old(auth.HasToken()), answer), DeleteFailed, true))
      ensures comments == (if outcome == Some(Succeeded) then WithoutComment(old(comments), commentId) else old(comments))
      ensures currentArtworkId == old(currentArtworkId) && isLoading == old(isLoading) && isPosting == old(isPosting)
      ensures confirmed ==>
        auth.sent == old(auth.sent) +
          (if old(auth.HasToken())
           then [Auth.Request(CommentUrl(commentId), Auth.FinalOptions(old(auth.token).value, DeleteOptions()))]
           else [])
      ensures confirmed && !Auth.LogsOut(old(auth.HasToken()), answer, confirmLogout) ==>
        auth.isAuthenticated == old(auth.isAuthenticated) && auth.token == old(auth.token) && auth.currentUser == old(auth.currentUser) &&
        auth.storedToken == old(auth.storedToken) && auth.storedUser == old(auth.storedUser)
      ensures confirmed && Auth.LogsOut(old(auth.HasToken()), answer, confirmLogout) ==>
        !auth.isAuthenticated && auth.token == None && auth.currentUser == None &&
        auth.storedToken == None && auth.storedUser == None
    {
      if !confirmed {
        return None;
      }
      var fetched := auth.FetchWithAuth(CommentUrl(commentId), DeleteOptions(), answer, confirmLogout);
      var settled := Reported(fetched, DeleteFailed, true);
      if settled == Succeeded {
        comments := WithoutComment(comments, commentId);
      }
      outcome := Some(settled);
    }
  }

  /** A comment that was just added, then deleted, is gone, and the thread is otherwise as before. */
  method AddThenDelete(start: seq<Comment>, posted: Comment, artworkId: int, t: string, user: Auth.User, content: string)
    returns (added: Outcome, removed: Option<Outcome>, thread: seq<Comment>)
    requires artworkId != 0 && t != "" && !Blank(content)
    requires forall c :: c in start ==> c.id != posted.id
    ensures added == Succeeded && removed == Some(Succeeded)
    ensures thread == start
  {
    var auth := new Auth.AuthState(None, None);
    var ok, _ := auth.Login(Auth.Accepted(t, user));
    assert auth.isAuthenticated && auth.HasToken();
    var page := new CommentsState();
    page.LoadComments(Some(artworkId), Ok(start));
    assert AddGuard(page.currentArtworkId, auth.isAuthenticated, content) == None;
    added := page.AddComment(auth, content, None, Some(Auth.Response(201, "")), Some(posted), false);
    assert page.comments == [posted] + start && auth.HasToken();
    removed := page.DeleteComment(auth, posted.id, true, Some(Auth.Response(200, "")), false);
    thread := page.comments;
    DeletePosted(start, posted);
  }

  /** Deleting a comment that was prepended to a thread without its id gives the thread back. */
  lemma DeletePosted(start: seq<Comment>, posted: Comment)
    requires forall c :: c in start ==> c.id != posted.id
    ensures WithoutComment([posted] + start, posted.id) == start
  {
    WithoutCommentSplits([posted], start, posted.id);
    FilterAll(start, c => KeptAfterDelete(posted.id, c));
  }
}
