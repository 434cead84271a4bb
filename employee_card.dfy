/** The employee card: the chip colour for an employee's status and the route of
    the employee's profile page. */
module EmployeeCard {
  import opened Wrappers
  import Text

  /** The chip colours the card uses. */
  datatype ChipColor = SuccessColor | ErrorColor | DefaultColor

  const ProfilePrefix := "/team/"

  function StatusColor(status: string): (color: ChipColor)
    ensures color == SuccessColor <==> Text.SameUpToCase(status, "active")
    ensures color == ErrorColor <==> Text.SameUpToCase(status, "inactive")
  {
    LowersToWord(status, "active");
    LowersToWord(status, "inactive");
    var s := Text.Lower(status);
    if s == "active" then SuccessColor
    else if s == "inactive" then ErrorColor
    else DefaultColor
  }

  /** The colour depends only on the lower-cased status. */
  lemma StatusColorIgnoresCase(status: string)
    ensures StatusColor(status) == StatusColor(Text.Lower(status))
  {
    Text.LowerIdempotent(status);
  }

  /** For a lower-case word, lower-casing a string gives the word exactly when the
      string spells the word in some mix of letter cases. */
  lemma LowersToWord(status: string, word: string)
    requires Text.Lower(word) == word
    ensures Text.Lower(status) == word <==> Text.SameUpToCase(status, word)
  {
    if Text.SameUpToCase(status, word) {
      Text.SameUpToCaseLowersAlike(status, word);
    }
    if Text.Lower(status) == word {
      forall i | 0 <= i < |status|
        ensures Text.LowerChar(status[i]) == Text.LowerChar(word[i])
      {
        assert Text.Lower(word)[i] == word[i];
      }
    }
  }

  /** "active" spelt in any letter case is shown as success. */
  lemma ActiveInAnyCase(status: string)
    requires Text.SameUpToCase(status, "active")
    ensures StatusColor(status) == SuccessColor
  {
    LowersToWord(status, "active");
  }

  /** "inactive" spelt in any letter case is shown as error. */
  lemma InactiveInAnyCase(status: string)
    requires Text.SameUpToCase(status, "inactive")
    ensures StatusColor(status) == ErrorColor
  {
    LowersToWord(status, "inactive");
  }

  /** Any other status gets the default colour. */
  lemma OtherStatusIsDefault(status: string)
    requires !Text.SameUpToCase(status, "active") && !Text.SameUpToCase(status, "inactive")
    ensures StatusColor(status) == DefaultColor
  {
    LowersToWord(status, "active");
    LowersToWord(status, "inactive");
  }

  /** The profile route a card navigates to. */
  function ProfileRoute(id: string): (route: string)
    ensures ProfilePrefix <= route && |route| == |ProfilePrefix| + |id|
    ensures route[|ProfilePrefix|..] == id
  {
    ProfilePrefix + id
  }

  /** Text that the browser's URL parser keeps as one whole path segment: non-empty,
      not a dot segment, with no path separator (`/`, and `\` in http URLs), no
      character that starts a query or a fragment, no tab or line break (the parser
      removes them), and not ending in a space or control character (the parser trims
      those from the end of the URL). */
  predicate IsPathSegment(s: string)
  {
    s != [] && s != "." && s != ".." &&
    '/' !in s && '\\' !in s && '?' !in s && '#' !in s &&
    '\t' !in s && '\r' !in s && '\n' !in s &&
    s[|s| - 1] > ' '
  }

  /** The id the profile page reads back from its route: the path segment after the prefix. */
  function RouteId(route: string): (id: Option<string>)
    ensures id.Some? ==> IsPathSegment(id.value) && ProfileRoute(id.value) == route
  {
    if ProfilePrefix <= route && |route| > |ProfilePrefix| && IsPathSegment(route[|ProfilePrefix|..])
    then Some(route[|ProfilePrefix|..])
    else None
  }

  /** The profile page recovers the card's id from the route, for every id that the
      path keeps as one segment. */
  lemma RouteRoundTrip(id: string)
    requires IsPathSegment(id)
    ensures RouteId(ProfileRoute(id)) == Some(id)
  {
    assert ProfileRoute(id)[|ProfilePrefix|..] == id;
  }
}
