// The companion picker of screens/AvatarSelectionScreen.tsx: six companions,
// a click that selects one and opens its story, and a Continue button that
// hands the selection on only when there is one.
module AvatarSelection {
  import opened Common
  import opened Content

  /** The story told in each companion's modal. */
  function StoryOf(art: Mascot): string
  {
    match art
    case UrulaArt =>
      "Urula is a wise owl made of amethyst. It is said that its feathers hold the secrets of ancient crystals, and its gentle hoots can calm any troubled mind."
    case ManawiArt =>
      "A cheerful plant sprite, Manawi carries a blooming flower on its tail. It loves sunshine and can make flowers sprout from the ground with a happy little dance."
    case AshetteArt =>
      "Ashette is a friendly fire spirit born from a gentle ember. Its flames are warm to the touch and flicker with happiness, leaving a trail of tiny, harmless sparks."
    case RevnantArt =>
      "This little golem is a guardian of ancient forests. Formed from moss and river stones, Revnant is incredibly shy but fiercely loyal to those it calls friends."
    case CruxArt =>
      "Crux is a cosmic creature that dreams among the stars. It fell to Earth on a moonbeam and now spends its days sleeping peacefully, collecting stardust in its fur."
    case StellaArt =>
      "Stella is a celestial deer whose body is a living constellation. It walks silently through the night, and its glowing antlers guide lost travelers to safety."
  }

  /** The companions' names, in table order; no two are alike. */
  function Names(): (r: seq<string>)
    ensures |r| == 6
    ensures forall i, j :: 0 <= i < j < |r| ==> r[i] != r[j]
    ensures forall i :: 0 <= i < |r| ==> r[i] != ""
  {
    var r := ["Urula", "Manawi", "Ashette", "Revnant", "Crux", "Stella"];
    assert r[0][0] == 'U' && r[1][0] == 'M' && r[2][0] == 'A' && r[3][0] == 'R' && r[4][0] == 'C' && r[5][0] == 'S';
    r
  }

  /** The companions' pictures, in table order. */
  function Arts(): (r: seq<Mascot>)
    ensures |r| == 6
    ensures forall i, j :: 0 <= i < j < |r| ==> r[i] != r[j]
  {
    [UrulaArt, ManawiArt, AshetteArt, RevnantArt, CruxArt, StellaArt]
  }

  /** The `avatars` table: six companions, each with its own picture, its
      own story and a name that no other companion has. */
  function Avatars(): (r: seq<AvatarData>)
    ensures |r| == 6
    ensures forall i, j :: 0 <= i < j < |r| ==> r[i].name != r[j].name && r[i].component != r[j].component
    ensures forall i :: 0 <= i < |r| ==> r[i].name != "" && r[i].story == StoryOf(r[i].component)
  {
    seq(6, i requires 0 <= i < 6 => AvatarData(Names()[i], Arts()[i], StoryOf(Arts()[i])))
  }

  /** `currentSelection?.name === avatar.name`. */
  predicate IsCardSelected(selection: Option<AvatarData>, avatar: AvatarData)
  {
    selection.Some? && selection.value.name == avatar.name
  }

  /** After a companion is picked from the table, its card is the only one
      highlighted, since the names differ. */
  lemma OnlyPickedCardHighlighted(k: nat)
    requires k < |Avatars()|
    ensures forall i :: 0 <= i < |Avatars()| ==> (IsCardSelected(Some(Avatars()[k]), Avatars()[i]) <==> i == k)
  {
  }

  /** The caption of the Continue button: `currentSelection?.name || '...'`. */
  function ContinueCaption(selection: Option<AvatarData>): (c: string)
    ensures selection.Some? && selection.value.name != "" ==> c == "Continue with " + selection.value.name
    ensures selection.None? ==> c == "Continue with ..."
    ensures selection.Some? && selection.value.name == "" ==> c == "Continue with ..."
  {
    "Continue with " + (if selection.Some? && selection.value.name != "" then selection.value.name else "...")
  }

  class Picker {
    var currentSelection: Option<AvatarData>
    var isModalOpen: bool

    constructor ()
      ensures currentSelection.None? && !isModalOpen
    {
      currentSelection, isModalOpen := None, false;
    }

    /** The story modal shows while open and something is selected. */
    predicate ModalShown()
      reads this
    {
      isModalOpen && currentSelection.Some?
    }

    /** The Continue button is disabled until something is selected. */
    predicate ContinueDisabled()
      reads this
    {
      currentSelection.None?
    }

    /** A click on a card: it becomes the selection and its story opens. */
    method SelectAvatar(avatar: AvatarData)
      modifies this
      ensures currentSelection == Some(avatar) && isModalOpen && ModalShown()
    {
      currentSelection := Some(avatar);
      isModalOpen := true;
    }

    /** Closing the story keeps the selection. */
    method CloseModal()
      modifies this
      ensures !isModalOpen && !ModalShown() && currentSelection == old(currentSelection)
    {
      isModalOpen := false;
    }

    /** `handleContinue`: the companion handed to the session, if any. */
    method Continue() returns (chosen: Option<AvatarData>)
      ensures chosen == currentSelection
      ensures chosen.Some? <==> !ContinueDisabled()
    {
      chosen := None;
      if currentSelection.Some? {
        chosen := currentSelection;
      }
    }
  }
}
