/** The navigation bar: the avatar initials and the search box. */
module Navbar {
  import opened Wrappers
  import opened Entities
  import Text
  import Uri

  // ---------------------------------------------------------------- splitting

  /** `s.split(sep)`: the pieces between separators, empty ones included. */
  function Split(s: string, sep: char): (r: seq<string>)
    ensures |r| >= 1
    ensures forall k, j :: 0 <= k < |r| && 0 <= j < |r[k]| ==> r[k][j] != sep
  {
    if |s| == 0 then [""]
    else if s[0] == sep then [""] + Split(s[1..], sep)
    else
      var rest := Split(s[1..], sep);
      [[s[0]] + rest[0]] + rest[1..]
  }

  /** `parts.join(sep)`. */
  function Join(parts: seq<string>, sep: char): string
    requires |parts| >= 1
  {
    if |parts| == 1 then parts[0] else parts[0] + [sep] + Join(parts[1..], sep)
  }

  /** Joining the pieces with the separator gives back the string. */
  lemma {:induction false} JoinSplit(s: string, sep: char)
    ensures Join(Split(s, sep), sep) == s
  {
    if |s| > 0 {
      JoinSplit(s[1..], sep);
      var rest := Split(s[1..], sep);
      if s[0] == sep {
        assert Split(s, sep)[1..] == rest;
        assert s == [sep] + s[1..];
      } else {
        var parts := Split(s, sep);
        assert parts[1..] == rest[1..];
        if |rest| > 1 {
          assert Join(rest, sep) == rest[0] + [sep] + Join(rest[1..], sep);
        }
      }
    }
  }

  /** `.map(n => n[0]).join("")`: the first character of every non-empty piece;
      an empty piece gives `undefined`, which `join` writes as nothing. */
  function FirstChars(parts: seq<string>): (r: string)
    ensures |r| <= |parts|
  {
    if |parts| == 0 then ""
    else (if |parts[0]| > 0 then [parts[0][0]] else "") + FirstChars(parts[1..])
  }

  /** `userInitials`: "G" for a guest. */
  function Initials(user: Option<User>): (r: string)
    ensures user.None? ==> r == "G"
    ensures user.Some? ==> |r| <= |Split(user.value.customerName, ' ')|
  {
    match user
    case None => "G"
    case Some(u) => Text.ToUpper(FirstChars(Split(u.customerName, ' ')))
  }

  // ---------------------------------------------------------------- initials, by definition

  /** The characters that start a word: non-spaces at the beginning or right
      after a space, read left to right. `atStart` says whether the previous
      character was a space (or there was none). */
  function WordStarts(s: string, atStart: bool): string
  {
    if |s| == 0 then ""
    else if s[0] == ' ' then WordStarts(s[1..], true)
    else (if atStart then [s[0]] else "") + WordStarts(s[1..], false)
  }

  lemma {:induction false} FirstCharsAreWordStarts(s: string)
    ensures FirstChars(Split(s, ' ')) == WordStarts(s, true)
    ensures FirstChars(Split(s, ' ')[1..]) == WordStarts(s, false)
  {
    if |s| > 0 {
      FirstCharsAreWordStarts(s[1..]);
      var rest := Split(s[1..], ' ');
      if s[0] == ' ' {
        assert Split(s, ' ')[1..] == rest;
      } else {
        assert Split(s, ' ')[1..] == rest[1..];
      }
    }
  }

  /** A user's initials are the upper-cased first letters of the words of the
      name: repeated, leading or trailing spaces contribute nothing. */
  lemma InitialsAreWordStarts(u: User)
    ensures Initials(Some(u)) == Text.ToUpper(WordStarts(u.customerName, true))
  {
    FirstCharsAreWordStarts(u.customerName);
  }

  /** A name without spaces gives its upper-cased first letter; an empty name gives nothing. */
  lemma SingleWordInitial(u: User)
    requires forall i :: 0 <= i < |u.customerName| ==> u.customerName[i] != ' '
    ensures |u.customerName| > 0 ==> Initials(Some(u)) == [Text.UpperChar(u.customerName[0])]
    ensures |u.customerName| == 0 ==> Initials(Some(u)) == ""
  {
    var s := u.customerName;
    InitialsAreWordStarts(u);
    if |s| > 0 {
      NoSpaceNoLaterStarts(s[1..]);
      assert WordStarts(s, true) == [s[0]];
    }
  }

  lemma {:induction false} NoSpaceNoLaterStarts(s: string)
    requires forall i :: 0 <= i < |s| ==> s[i] != ' '
    ensures WordStarts(s, false) == ""
  {
    if |s| > 0 {
      NoSpaceNoLaterStarts(s[1..]);
    }
  }

  // ---------------------------------------------------------------- search box

  /** What a search submit does: where to go, and the box's new contents. */
  datatype SearchOutcome = SearchOutcome(navigateTo: Option<string>, query: string)

  /** `handleSearch`: a blank query does nothing; otherwise go to the search
      page with the untrimmed query encoded, and clear the box. */
  function HandleSearch(query: string): (r: SearchOutcome)
    ensures Text.IsBlank(query) <==> r.navigateTo.None?
    ensures r.navigateTo.None? ==> r.query == query
    ensures r.navigateTo.Some? ==> r.query == ""
    ensures r.navigateTo.Some? ==> r.navigateTo.value == "/search?q=" + Uri.EncodeUriComponent(query)
  {
    if Text.IsBlank(query) then SearchOutcome(None, query)
    else SearchOutcome(Some("/search?q=" + Uri.EncodeUriComponent(query)), "")
  }

  /** The search page receives exactly the typed text, surrounding spaces included. */
  lemma SearchCarriesUntrimmedQuery(query: string)
    requires !Text.IsBlank(query)
    ensures var r := HandleSearch(query);
      r.navigateTo.Some? && Text.StartsWith(r.navigateTo.value, "/search?q=") &&
      Uri.DecodeBytes(r.navigateTo.value[10..]) == Uri.Utf8(query)
  {
    var path := HandleSearch(query).navigateTo.value;
    assert path[10..] == Uri.EncodeUriComponent(query);
    Uri.DecodeEncode(query);
  }

  /** A whitespace-only query never navigates. */
  lemma WhitespaceSearchDoesNothing(query: string)
    requires Text.AllWhitespace(query)
    ensures HandleSearch(query) == SearchOutcome(None, query)
  {
    Text.BlankIffAllWhitespace(query);
  }
}
