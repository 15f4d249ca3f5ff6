/**
 * The greeting script: the name a user types is stripped, refused when
 * empty and title-cased; three names get their own welcome and greeting,
 * every other name a default pair built around it. Colour codes and the
 * rest of the terminal layout are not modelled.
 */
module Greeter {
  import opened Wrappers
  import opened Text

  /** One pass of `get_user_name`'s loop body: `None` means "empty, ask again". */
  function NormaliseName(raw: string): (r: Option<string>)
    ensures r.None? <==> Strip(raw) == []
    ensures r.Some? ==> && r.value != []
                        && NoEdgeSpace(r.value)
                        && IsTitled(r.value)
                        && Lower(r.value) == Lower(Strip(raw))
  {
    var t := Strip(raw);
    if t == [] then None
    else
      StripSpec(raw);
      TitleKeepsNoEdgeSpace(t);
      TitleIsTitled(t);
      TitleIdempotent(t);
      TitleEqualIffLowerEqual(Title(t), t);
      Some(Title(t))
  }

  /** Normalising a name that has already been normalised gives it back. */
  lemma NormaliseIdempotent(raw: string)
    requires NormaliseName(raw).Some?
    ensures NormaliseName(NormaliseName(raw).value) == NormaliseName(raw)
  {
    var n := NormaliseName(raw).value;
    StripNoEdgeSpace(n);
    TitledIsFixed(n);
  }

  /**
   * `get_user_name` over a finite stream of typed lines: the first line that
   * is not blank, normalised. Blank lines are refused and never returned;
   * `None` when every line is blank.
   */
  function GetUserName(lines: seq<string>): (r: Option<string>)
    ensures r.None? <==> forall j :: 0 <= j < |lines| ==> Strip(lines[j]) == []
    ensures r.Some? ==> exists k :: 0 <= k < |lines| && NormaliseName(lines[k]) == r
                                    && forall j :: 0 <= j < k ==> Strip(lines[j]) == []
  {
    if lines == [] then None
    else match NormaliseName(lines[0])
      case Some(name) => Some(name)
      case None =>
        var r := GetUserName(lines[1..]);
        assert forall j :: 1 <= j < |lines| ==> lines[j] == lines[1..][j - 1];
        r
  }

  /** The pair `get_special_message` returns. */
  datatype Messages = Messages(welcome: string, greeting: string)

  /** The table of users with their own messages; the lookup is by exact string. */
  const SpecialUsers: map<string, Messages> := map[
    "Musa" := Messages("Hey, it's the awesome AI Director! Welcome back!",
                       "Hello, Awesome AI Director! Your presence makes this program special!"),
    "John" := Messages("Welcome back, John! Great to see you again!",
                       "Hello, John! You're a valued member of our community!"),
    "Sarah" := Messages("Sarah! The coding wizard is back!",
                        "Hello, Sarah! Your expertise lights up our program!")
  ]

  /** `part` occurs in `s` starting at position `i`. */
  predicate OccursAt(s: string, part: string, i: int) {
    0 <= i <= |s| - |part| && s[i..i + |part|] == part
  }

  /** Python's `part in s`. */
  ghost predicate Contains(s: string, part: string) {
    exists i :: OccursAt(s, part, i)
  }

  /** The pair for any name not in the table; both messages mention the name. */
  function DefaultMessages(name: string): (d: Messages)
    ensures Contains(d.welcome, name) && Contains(d.greeting, name)
  {
    var d := Messages("Welcome " + name + " to Python Programming!\nThis is an enhanced welcome message script.\nHello "
                        + name + ", we're glad to have you here!",
                      "Hello, " + name + "! Welcome to the program!");
    assert OccursAt(d.welcome, name, 8);
    assert OccursAt(d.greeting, name, 7);
    d
  }

  /**
   * `get_special_message`: a name in the table gets its entry, any other the
   * default pair, and both default messages mention the name.
   */
  function SpecialMessage(name: string): (r: Messages)
    ensures name in SpecialUsers ==> r == SpecialUsers[name]
    ensures name !in SpecialUsers ==> r == DefaultMessages(name)
    ensures name !in SpecialUsers ==> Contains(r.welcome, name) && Contains(r.greeting, name)
  {
    if name in SpecialUsers then SpecialUsers[name] else DefaultMessages(name)
  }

  /** Every key of the table is already title-cased, so normalised input can reach it. */
  lemma SpecialNamesTitled()
    ensures forall name :: name in SpecialUsers ==> NormaliseName(name) == Some(name)
  {
    forall name | name in SpecialUsers ensures NormaliseName(name) == Some(name) {
      assert NoEdgeSpace(name);
      StripNoEdgeSpace(name);
      assert TitledAt(name, 0);
      assert forall i :: 1 <= i < |name| ==> TitledAt(name, i);
      TitledIsFixed(name);
    }
  }

  /**
   * Which typed lines reach a special user's entry: exactly those that,
   * stripped, spell the name in any mixture of upper and lower case. So
   * "musa" and "  MUSA " both reach "Musa", and "Musa!" does not.
   */
  lemma ReachesSpecialUser(raw: string, name: string)
    requires name in SpecialUsers
    ensures NormaliseName(raw) == Some(name) <==> Lower(Strip(raw)) == Lower(name)
  {
    SpecialNamesTitled();
    var t := Strip(raw);
    TitleEqualIffLowerEqual(t, name);
    assert Title(name) == name;
    if Lower(t) == Lower(name) {
      assert t != [];
    }
  }

  /** Typed in lower case, "musa" still gets the entry for "Musa". */
  lemma LowerCaseMusa()
    ensures SpecialMessage(NormaliseName("musa").value) == SpecialUsers["Musa"]
  {
    ReachesSpecialUser("musa", "Musa");
    StripNoEdgeSpace("musa");
    assert Lower("musa") == Lower("Musa");
  }
}
