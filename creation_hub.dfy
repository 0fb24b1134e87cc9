// The creation hub of screens/CreationHubScreen.tsx: the notes text, the nine
// feature buttons and the single `loadingFeature` lock. A generation request is
// split into two events: the click that starts it (`FeatureClick`) and the
// arrival of the generator's answer (`Respond`).
module CreationHub {
  import opened Common
  import opened Content

  /** The nine creation features, in button order. */
  datatype Feature =
    | PuzzlesFeature | DndFeature | MistakesFeature | SpeedFeature | StoryFeature
    | ScenariosFeature | CreativeFeature | AdventuresFeature | TrackingFeature

  /** The id of a feature's button. */
  function IdOf(f: Feature): string
  {
    match f
    case PuzzlesFeature => "puzzles"
    case DndFeature => "dnd"
    case MistakesFeature => "mistakes"
    case SpeedFeature => "speed"
    case StoryFeature => "story"
    case ScenariosFeature => "scenarios"
    case CreativeFeature => "creative"
    case AdventuresFeature => "adventures"
    case TrackingFeature => "tracking"
  }

  /** The feature the if-chain of `handleFeatureClick` selects for an id. */
  function FeatureOf(id: string): (r: Option<Feature>)
    ensures r.Some? ==> IdOf(r.value) == id
    ensures r.None? ==> forall f: Feature :: IdOf(f) != id
  {
    if id == "puzzles" then Some(PuzzlesFeature)
    else if id == "dnd" then Some(DndFeature)
    else if id == "mistakes" then Some(MistakesFeature)
    else if id == "speed" then Some(SpeedFeature)
    else if id == "story" then Some(StoryFeature)
    else if id == "scenarios" then Some(ScenariosFeature)
    else if id == "creative" then Some(CreativeFeature)
    else if id == "adventures" then Some(AdventuresFeature)
    else if id == "tracking" then Some(TrackingFeature)
    else None
  }

  /** Every button's id leads back to its own feature, so the nine ids are distinct. */
  lemma FeatureIdRoundTrip(f: Feature, g: Feature)
    ensures FeatureOf(IdOf(f)) == Some(f)
    ensures IdOf(f) == IdOf(g) ==> f == g
  {
    assert FeatureOf(IdOf(f)) == Some(f);
    assert FeatureOf(IdOf(g)) == Some(g);
  }

  /** The feature whose generator produces a payload of this kind. */
  function FeatureFor(p: Payload): Feature
  {
    match p
    case PuzzlesPayload(_) => PuzzlesFeature
    case DragAndDropPayload(_) => DndFeature
    case FindTheMistakePayload(_) => MistakesFeature
    case SpeedRoundsPayload(_) => SpeedFeature
    case StoryPayload(_) => StoryFeature
    case ScenariosPayload(_) => ScenariosFeature
    case OutsideTheBoxPayload(_) => CreativeFeature
    case MiniAdventurePayload(_) => AdventuresFeature
    case KnowledgeTrackerPayload(_) => TrackingFeature
  }

  const MaxChars: nat := 5000

  /** `text.slice(0, MAX_CHARS)`: the notes taken from an uploaded file. */
  function TruncateNotes(text: string): (r: string)
    ensures |r| <= MaxChars && r <= text
    ensures |text| <= MaxChars ==> r == text
    ensures |text| > MaxChars ==> |r| == MaxChars
  {
    if |text| <= MaxChars then text else text[..MaxChars]
  }

  /** What a click on a feature button does. */
  datatype Effect =
    | Ignored                   // a guard returned early
    | Requested(feature: Feature) // the lock is taken and the generator is called on the notes
    | DeliveredDefault          // the built-in tracker is handed on at once
    | StillBrewing              // an unknown id: the "still brewing" alert

  /** `handleFeatureClick` with the guards of the handler it calls. */
  function Dispatch(notes: string, loading: Option<Feature>, id: string): (e: Effect)
    ensures e.Requested? ==> loading.None? && !IsBlank(notes) && IdOf(e.feature) == id
    ensures e.DeliveredDefault? ==> loading.None? && IsBlank(notes) && id == "tracking"
    ensures e.StillBrewing? <==> FeatureOf(id).None?
  {
    match FeatureOf(id)
    case None => StillBrewing
    case Some(f) =>
      if f == TrackingFeature && IsBlank(notes) then
        (if loading.Some? then Ignored else DeliveredDefault)
      else if IsBlank(notes) || loading.Some? then Ignored
      else Requested(f)
  }

  /** `isDisabled` of a feature button. */
  predicate IsDisabled(notes: string, loading: Option<Feature>, f: Feature)
  {
    if f == TrackingFeature then loading.Some? else IsBlank(notes) || loading.Some?
  }

  /** A button is disabled exactly when clicking it would do nothing. */
  lemma DisabledIffIgnored(notes: string, loading: Option<Feature>, f: Feature)
    ensures IsDisabled(notes, loading, f) <==> Dispatch(notes, loading, IdOf(f)) == Ignored
  {
    FeatureIdRoundTrip(f, f);
  }

  /** While a feature is loading no click starts another request: at most one
      feature loads at a time. */
  lemma LoadingLocksEveryButton(notes: string, f: Feature, id: string)
    ensures Dispatch(notes, Some(f), id) == Ignored || Dispatch(notes, Some(f), id) == StillBrewing
  {
  }

  /** Tracking with notes that are only white space shows the built-in tracker
      without a request; with real notes it requests an analysis. */
  lemma {:induction false} TrackingFallback(notes: string)
    ensures AllSpace(notes) ==> Dispatch(notes, None, "tracking") == DeliveredDefault
    ensures !AllSpace(notes) ==> Dispatch(notes, None, "tracking") == Requested(TrackingFeature)
  {
    BlankIffAllSpace(notes);
  }

  /** The generator's answer to a request. */
  datatype Response =
    | Answer(payload: Payload) // a non-null result
    | NoAnswer                 // a null result
    | Failure                  // the request threw

  /** What the hub does when a request ends. */
  datatype Outcome =
    | Delivered(payload: Payload) // the matching `onXGenerated` callback is called
    | NoResultAlert(feature: Feature)
    | ErrorAlert(feature: Feature)

  /** The `try`/`catch` of a generate handler. */
  function Resolve(f: Feature, r: Response): (o: Outcome)
    requires r.Answer? ==> FeatureFor(r.payload) == f
    ensures o.Delivered? <==> r.Answer?
    ensures o.Delivered? ==> o.payload == r.payload && FeatureFor(o.payload) == f
    ensures o.NoResultAlert? <==> r.NoAnswer?
    ensures !o.Delivered? ==> o.feature == f
  {
    match r
    case Answer(p) => Delivered(p)
    case NoAnswer => NoResultAlert(f)
    case Failure => ErrorAlert(f)
  }

  /** The component's state. */
  class Hub {
    var notes: string
    var loadingFeature: Option<Feature>

    constructor ()
      ensures notes == "" && loadingFeature == None
    {
      notes := "";
      loadingFeature := None;
    }

    /** Typing in the text area, whose `maxLength` caps the text. */
    method EditNotes(value: string)
      requires |value| <= MaxChars
      modifies this
      ensures notes == value && loadingFeature == old(loadingFeature)
    {
      notes := value;
    }

    /** The file reader's `onload`. */
    method FileLoaded(text: string)
      modifies this
      ensures notes == TruncateNotes(text) && loadingFeature == old(loadingFeature)
    {
      notes := TruncateNotes(text);
    }

    /** A click on the button with id `id`. */
    method FeatureClick(id: string) returns (e: Effect)
      modifies this
      ensures e == Dispatch(old(notes), old(loadingFeature), id)
      ensures notes == old(notes)
      ensures loadingFeature == (if e.Requested? then Some(e.feature) else old(loadingFeature))
    {
      var f := FeatureOf(id);
      if f.None? {
        e := StillBrewing;
      } else if f.value == TrackingFeature && IsBlank(notes) {
        // handleShowDefaultKnowledgeTracker: the lock is taken and released in one turn
        if loadingFeature.Some? {
          e := Ignored;
        } else {
          e := DeliveredDefault;
        }
      } else if IsBlank(notes) || loadingFeature.Some? {
        e := Ignored;
      } else {
        loadingFeature := f;
        e := Requested(f.value);
      }
    }

    /** The awaited generator call returns; `finally` releases the lock. */
    method Respond(r: Response) returns (o: Outcome)
      requires loadingFeature.Some?
      requires r.Answer? ==> FeatureFor(r.payload) == loadingFeature.value
      modifies this
      ensures o == Resolve(old(loadingFeature).value, r)
      ensures loadingFeature == None && notes == old(notes)
    {
      o := Resolve(loadingFeature.value, r);
      loadingFeature := None;
    }
  }
}
