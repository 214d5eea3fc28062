/**
 * The story API client: the guards and normalisation of
 * `fetchStoriesWithToken` and the form and error envelopes of `postStory`.
 * The request itself is an outcome parameter.
 */
module Api {
  import opened Wrappers
  import opened Text
  import opened Records

  const ApiBase := "https://story-api.dicoding.dev/v1"

  /** The image shown for a story whose `photoUrl` is missing or not absolute. */
  const PlaceholderPhoto := PlaceholderScheme + PlaceholderData
  const PlaceholderScheme := "data:image/svg+xml;base64,"
  const PlaceholderData := "PHN2ZyB3aWR0aD0iMjAwIiBoZWlnaHQ9IjIwMCIgeG1sbnM9Imh0dHA6Ly93d3cudzMub3JnLzIwMDAvc3ZnIj48cmVjdCB3aWR0aD0iMTAwJSIgaGVpZ2h0PSIxMDAlIiBmaWxsPSIjZGRkIi8+PHRleHQgeD0iNTAlIiB5PSI1MCUiIGZvbnQtZmFtaWx5PSJBcmlhbCwgc2Fucy1zZXJpZiIgZm9udC1zaXplPSIxNCIgZmlsbD0iIzk5OSIgdGV4dC1hbmNob3I9Im1pZGRsZSIgZHk9Ii4zZW0iPkdhbWJhciB0aWRhayB0ZXJzZWRpYTwvdGV4dD48L3N2Zz4="

  /** A story as the API lists it; `extra` stands for any further fields it carries. */
  datatype ApiStory = ApiStory(id: string, name: string, description: string, photoUrl: Option<string>,
                               lat: Option<real>, lon: Option<real>, createdAt: int, extra: map<string, string>)

  /** The body of `GET /stories`. */
  datatype StoriesBody = StoriesBody(error: bool, listStory: Option<seq<ApiStory>>, message: Option<string>)

  /** What the request did: a response (with its body, when it parsed) or a thrown error. */
  datatype FetchOutcome =
    | Responded(ok: bool, status: int, body: StoriesBody)
    | Threw(name: string, message: string)

  /** A `photoUrl` is kept iff it is present and starts with `http`. */
  predicate UsablePhotoUrl(p: Option<string>) {
    p.Some? && p.value != "" && StartsWith(p.value, "http")
  }

  /** One listed story reduced to the fields the app keeps. */
  function Normalize(a: ApiStory): (s: Story)
    ensures s.id == a.id && s.name == a.name && s.description == a.description && s.createdAt == a.createdAt
    ensures s.lat == a.lat && s.lon == a.lon && s.hasLocation == None && s.cachedAt == None
    ensures UsablePhotoUrl(a.photoUrl) ==> s.photoUrl == a.photoUrl.value
    ensures s.photoUrl == PlaceholderPhoto <==> !UsablePhotoUrl(a.photoUrl)
  {
    var photoUrl := if !UsablePhotoUrl(a.photoUrl) then PlaceholderPhoto else a.photoUrl.value;
    assert PlaceholderPhoto[0] == 'd';
    assert UsablePhotoUrl(a.photoUrl) ==> a.photoUrl.value[0] == 'h';
    Story(a.id, a.name, a.description, photoUrl, a.createdAt, a.lat, a.lon, None, None)
  }

  function NormalizeAll(list: seq<ApiStory>): (r: seq<Story>)
    ensures |r| == |list|
    ensures forall i :: 0 <= i < |r| ==> r[i] == Normalize(list[i])
  {
    seq(|list|, i requires 0 <= i < |list| => Normalize(list[i]))
  }

  /** The stories and whether a request was made. */
  datatype FetchResult = FetchResult(stories: seq<Story>, requested: bool)

  /**
   * `fetchStoriesWithToken`: no token, a non-ok status, an error body, a
   * missing list or a thrown error all give `[]`; otherwise the list,
   * normalised one for one.
   */
  function FetchStoriesWithToken(token: string, outcome: FetchOutcome): (r: FetchResult)
    ensures r.requested <==> token != ""
    ensures token == "" ==> r.stories == []
    ensures outcome.Threw? ==> r.stories == []
    ensures outcome.Responded? && (!outcome.ok || outcome.body.error || outcome.body.listStory.None?) ==> r.stories == []
    ensures token != "" && outcome.Responded? && outcome.ok && !outcome.body.error && outcome.body.listStory.Some? ==>
      r.stories == NormalizeAll(outcome.body.listStory.value)
  {
    if token == "" then FetchResult([], false)
    else match outcome
      case Threw(_, _) => FetchResult([], true)
      case Responded(ok, _, body) =>
        if !ok then FetchResult([], true)
        else if body.error || body.listStory.None? then FetchResult([], true)
        else FetchResult(NormalizeAll(body.listStory.value), true)
  }

  // ---------------------------------------------------------------- postStory

  datatype FormValue = TextValue(text: string) | FileValue(size: nat) | NumberValue(number: real)

  /** The appended form fields, in order. */
  datatype FormField = FormField(name: string, value: FormValue)

  /** The body of `POST /stories`. */
  datatype PostBody = PostBody(error: bool, message: Option<string>)

  datatype PostOutcome =
    | PostResponded(ok: bool, status: int, statusText: string, body: PostBody)
    | PostThrew(name: string, message: string)

  /** `postStory`'s answer: the error envelope or the server's body. */
  datatype Envelope = ErrorEnvelope(message: string) | Posted(body: PostBody)

  const LoginRequiredMessage := "Anda harus login untuk menambah cerita."
  const TimeoutMessage := "Request timeout - Server terlalu lama merespon."
  const ConnectionMessage := "Gagal terhubung ke server. Periksa koneksi internet Anda."
  const SendFailedPrefix := "Gagal mengirim data: "

  /** The form: description and photo always; `lat` and `lon` only when truthy (so `0` is dropped). */
  function StoryForm(description: string, photoSize: nat, lat: Option<real>, lon: Option<real>): (r: seq<FormField>)
    ensures |r| >= 2 && r[0] == FormField("description", TextValue(description)) && r[1] == FormField("photo", FileValue(photoSize))
    ensures FormField("lat", NumberValue(lat.GetOr(0.0))) in r <==> Truthy(lat)
    ensures FormField("lon", NumberValue(lon.GetOr(0.0))) in r <==> Truthy(lon)
    ensures |r| == 2 + (if Truthy(lat) then 1 else 0) + (if Truthy(lon) then 1 else 0)
  {
    var form := [FormField("description", TextValue(description)), FormField("photo", FileValue(photoSize))];
    var form := if Truthy(lat) then form + [FormField("lat", NumberValue(lat.value))] else form;
    if Truthy(lon) then form + [FormField("lon", NumberValue(lon.value))] else form
  }

  /** The message of a failed response: the body's message if it has one, else the status line. */
  function ResponseErrorMessage(status: int, statusText: string, message: Option<string>): (r: string)
    ensures message.Some? && message.value != "" ==> r == message.value
    ensures !(message.Some? && message.value != "") ==> r == "Error " + IntToString(status) + ": " + statusText
  {
    if message.Some? && message.value != "" then message.value
    else "Error " + IntToString(status) + ": " + statusText
  }

  /** How a thrown failure is reported. */
  function ThrownMessage(name: string, message: string): (r: string)
    ensures name == "AbortError" ==> r == TimeoutMessage
    ensures name != "AbortError" && name == "TypeError" && Contains(message, "Failed to fetch") ==> r == ConnectionMessage
    ensures name != "AbortError" && !(name == "TypeError" && Contains(message, "Failed to fetch")) ==>
      r == SendFailedPrefix + message
  {
    if name == "AbortError" then TimeoutMessage
    else if name == "TypeError" && Contains(message, "Failed to fetch") then ConnectionMessage
    else SendFailedPrefix + message
  }

  /** A request made and its answer; `form` is `None` when nothing was sent. */
  datatype PostResult = PostResult(form: Option<seq<FormField>>, envelope: Envelope)

  /**
   * `postStory`: without a token nothing is sent; a non-ok status or an
   * error body gives an error envelope; a thrown failure is classified.
   */
  function PostStory(token: string, description: string, photoSize: nat, lat: Option<real>, lon: Option<real>,
                     outcome: PostOutcome): (r: PostResult)
    ensures token == "" ==> r == PostResult(None, ErrorEnvelope(LoginRequiredMessage))
    ensures token != "" ==> r.form == Some(StoryForm(description, photoSize, lat, lon))
    ensures token != "" && outcome.PostResponded? ==>
      (r.envelope.ErrorEnvelope? <==> !outcome.ok || outcome.body.error)
    ensures token != "" && outcome.PostResponded? && r.envelope.ErrorEnvelope? ==>
      r.envelope.message == ResponseErrorMessage(outcome.status, outcome.statusText, outcome.body.message)
    ensures token != "" && outcome.PostResponded? && r.envelope.Posted? ==> r.envelope.body == outcome.body
    ensures token != "" && outcome.PostThrew? ==>
      r.envelope == ErrorEnvelope(ThrownMessage(outcome.name, outcome.message))
  {
    if token == "" then PostResult(None, ErrorEnvelope(LoginRequiredMessage))
    else
      var form := StoryForm(description, photoSize, lat, lon);
      match outcome
      case PostThrew(name, message) => PostResult(Some(form), ErrorEnvelope(ThrownMessage(name, message)))
      case PostResponded(ok, status, statusText, body) =>
        if !ok || body.error then PostResult(Some(form), ErrorEnvelope(ResponseErrorMessage(status, statusText, body.message)))
        else PostResult(Some(form), Posted(body))
  }

  /** Every failure ends in an error envelope with a non-empty message when the server gave one or none. */
  lemma PostFailureMessages(token: string, description: string, photoSize: nat, lat: Option<real>, lon: Option<real>,
                            outcome: PostOutcome)
    requires PostStory(token, description, photoSize, lat, lon, outcome).envelope.ErrorEnvelope?
    ensures PostStory(token, description, photoSize, lat, lon, outcome).envelope.message != ""
  {
    var r := PostStory(token, description, photoSize, lat, lon, outcome);
    if token != "" {
      match outcome
      case PostThrew(name, message) =>
        assert |ThrownMessage(name, message)| > 0 by {
          if !(name == "AbortError") && !(name == "TypeError" && Contains(message, "Failed to fetch")) {
            assert |SendFailedPrefix + message| >= |SendFailedPrefix|;
          }
        }
      case PostResponded(ok, status, statusText, body) =>
        assert |"Error " + IntToString(status) + ": " + statusText| > 0;
    }
  }
}
