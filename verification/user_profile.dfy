/**
  The signed-in user's profile card (`components/UserProfile.tsx`): the
  avatar initials, the role badge's colour and label, and the location line.
 */
module UserProfile {
  import opened Optional
  import opened Text
  import Lists
  import Auth

  /** The first character of each non-empty word, in order (`word[0]` of an
      empty word is `undefined`, which `join` renders as nothing). */
  function FirstChars(words: seq<string>): (r: string)
    ensures |r| == Lists.Count(words, (w: string) => w != [])
  {
    if words == [] then []
    else (if words[0] == [] then [] else [words[0][0]]) + FirstChars(words[1..])
  }

  /** Taking first characters distributes over concatenation of word lists. */
  lemma {:induction false} FirstCharsConcat(a: seq<string>, b: seq<string>)
    ensures FirstChars(a + b) == FirstChars(a) + FirstChars(b)
  {
    if a == [] {
      assert a + b == b;
    } else {
      assert (a + b)[0] == a[0];
      assert (a + b)[1..] == a[1..] + b;
      FirstCharsConcat(a[1..], b);
    }
  }

  /** A word appended at the end contributes its first character at the
      end, and an empty word contributes nothing. */
  lemma FirstCharsAppend(words: seq<string>, w: string)
    ensures FirstChars(words + [w]) == FirstChars(words) + (if w == [] then [] else [w[0]])
  {
    FirstCharsConcat(words, [w]);
    assert [w][1..] == [];
  }

  /** `slice(0, 2)`. */
  function TakeTwo(s: string): (r: string)
    ensures |r| <= 2 && |r| <= |s| && r == s[..|r|]
    ensures |s| >= 2 ==> |r| == 2
    ensures |s| < 2 ==> r == s
  {
    if |s| <= 2 then s else s[..2]
  }

  /** `getInitials(name)`. */
  function Initials(name: string): (r: string)
    ensures |r| <= 2
    ensures forall i :: 0 <= i < |r| ==> !IsAsciiLower(r[i])
  {
    TakeTwo(Upper(FirstChars(Split(name, ' '))))
  }

  /** A two-word name gives the upper-cased first letters of both words. */
  lemma InitialsOfTwoWords(a: string, b: string)
    requires a != [] && b != [] && ' ' !in a && ' ' !in b
    ensures Initials(a + " " + b) == [UpperChar(a[0]), UpperChar(b[0])]
  {
    SplitNoSeparator(b, ' ');
    SplitAtSeparator(a, ' ', b);
    assert a + " " + b == a + [' '] + b;
    assert Split(a + " " + b, ' ') == [a, b] + [];
    LeadingInitials(a, b, []);
  }

  /** Splitting at the first two spaces. */
  lemma SplitTwoWords(a: string, b: string, rest: string)
    requires ' ' !in a && ' ' !in b
    ensures Split(a + " " + b + " " + rest, ' ') == [a, b] + Split(rest, ' ')
  {
    var tail := b + " " + rest;
    SplitAtSeparator(b, ' ', rest);
    assert tail == b + [' '] + rest;
    SplitAtSeparator(a, ' ', tail);
    assert a + " " + b + " " + rest == a + [' '] + tail;
    assert [a] + ([b] + Split(rest, ' ')) == [a, b] + Split(rest, ' ');
  }

  /** Words after the second do not show. */
  lemma InitialsIgnoreLaterWords(a: string, b: string, rest: string)
    requires a != [] && b != [] && ' ' !in a && ' ' !in b
    ensures Initials(a + " " + b + " " + rest) == Initials(a + " " + b)
  {
    SplitTwoWords(a, b, rest);
    LeadingInitials(a, b, Split(rest, ' '));
    InitialsOfTwoWords(a, b);
  }

  /** Two leading non-empty words decide the first two initials. */
  lemma LeadingInitials(a: string, b: string, more: seq<string>)
    requires a != [] && b != []
    ensures TakeTwo(Upper(FirstChars([a, b] + more))) == [UpperChar(a[0]), UpperChar(b[0])]
  {
    var ws := [a, b] + more;
    assert ws[1..] == [b] + more;
    assert ([b] + more)[1..] == more;
    assert FirstChars(ws) == [a[0]] + ([b[0]] + FirstChars(more));
  }

  /** A one-word name gives its upper-cased first letter. */
  lemma InitialsOfOneWord(a: string)
    requires a != [] && ' ' !in a
    ensures Initials(a) == [UpperChar(a[0])]
  {
    SplitNoSeparator(a, ' ');
    assert FirstChars([a]) == [a[0]] + FirstChars([]);
  }

  datatype BadgeColor = Red | Blue | Green | Gray

  /** `getRoleColor(role)`. */
  function RoleColor(role: string): (c: BadgeColor)
    ensures c == Red <==> role == "admin"
    ensures c == Blue <==> role == "officer"
    ensures c == Green <==> role == "farmer"
    ensures c == Gray <==> role != "admin" && role != "officer" && role != "farmer"
  {
    if role == "admin" then Red
    else if role == "officer" then Blue
    else if role == "farmer" then Green
    else Gray
  }

  /** The badge text: the role with its first letter upper-cased. */
  function RoleLabel(role: string): (shown: string)
    ensures |shown| == |role|
    ensures role != [] ==> shown[0] == UpperChar(role[0]) && shown[1..] == role[1..]
  {
    Capitalize(role)
  }

  /** The label differs from the role only in letter case, so lower-casing
      it gives back the lower-cased role. */
  lemma RoleLabelKeepsRole(role: string)
    ensures Lower(RoleLabel(role)) == Lower(role)
  {
    var shown := RoleLabel(role);
    forall i | 0 <= i < |role|
      ensures Lower(shown)[i] == Lower(role)[i]
    {
      if i == 0 {
        CaseRoundTrip(role[0]);
      }
    }
  }

  /** JavaScript truthiness of an optional string: present and non-empty. */
  predicate Present(x: Option<string>)
  {
    x.Some? && x.value != ""
  }

  /** The location line: "district, state" when both are present. */
  function Location(district: Option<string>, state: Option<string>): (shown: string)
    ensures Present(district) && Present(state) ==> shown == district.value + ", " + state.value
    ensures !(Present(district) && Present(state)) ==> shown == "Not provided"
  {
    if Present(district) && Present(state) then district.value + ", " + state.value
    else "Not provided"
  }

  /** A user signed in through the mock login always has a location line. */
  lemma MockUserLocation(email: string, id: string)
    ensures var u := Auth.MockUser(email, id);
      Location(u.district, u.state) == "New Delhi, Delhi"
  {
  }
}
