/**
 The join form: the submitted entries become a user record, and the user type
 chosen decides where the visitor is sent next.
 */
module JoinForm {
  import opened Wrappers

  /** A form's entries, (name, value), in document order. */
  type Entries = seq<(string, string)>

  /** `r` is nothing when no entry is named `name`, and otherwise the value of
      the first entry that is. */
  ghost predicate FirstValue(entries: Entries, name: string, r: Option<string>) {
    && (r.None? <==> forall k | 0 <= k < |entries| :: entries[k].0 != name)
    && (r.Some? ==> exists k | 0 <= k < |entries| ::
          entries[k] == (name, r.value) && forall j | 0 <= j < k :: entries[j].0 != name)
  }

  /** `formData.get(name)`: the first value under `name`, or `null`. */
  function Get(entries: Entries, name: string): (r: Option<string>)
    ensures FirstValue(entries, name, r)
  {
    if entries == [] then None
    else if entries[0].0 == name then Some(entries[0].1)
    else
      var r := Get(entries[1..], name);
      assert r.Some? ==> exists k | 0 <= k < |entries| ::
               entries[k] == (name, r.value) && forall j | 0 <= j < k :: entries[j].0 != name by {
        if r.Some? {
          var k :| 0 <= k < |entries[1..]| && entries[1..][k] == (name, r.value) &&
                   forall j | 0 <= j < k :: entries[1..][j].0 != name;
          assert entries[k + 1] == (name, r.value);
          forall j | 0 <= j < k + 1 ensures entries[j].0 != name {
            if j > 0 { assert entries[j] == entries[1..][j - 1]; }
          }
        }
      }
      r
  }

  /** `formData.getAll(name)`: every value under `name`, in order. */
  function GetAll(entries: Entries, name: string): (values: seq<string>)
    ensures |values| <= |entries|
    ensures forall v :: v in values <==> (name, v) in entries
  {
    if entries == [] then []
    else if entries[0].0 == name then [entries[0].1] + GetAll(entries[1..], name)
    else GetAll(entries[1..], name)
  }

  /** `getAll` of one entry is its value when the name matches, and nothing otherwise. */
  lemma GetAllSingle(key: string, value: string, name: string)
    ensures GetAll([(key, value)], name) == if key == name then [value] else []
  {
    assert [(key, value)][1..] == [];
  }

  /** `getAll` distributes over concatenation: together with the one-entry case
      this says it lists the values under `name` in entry order, duplicates included. */
  lemma {:induction false} GetAllAppend(a: Entries, b: Entries, name: string)
    ensures GetAll(a + b, name) == GetAll(a, name) + GetAll(b, name)
  {
    if a == [] {
      assert a + b == b;
    } else {
      assert (a + b)[0] == a[0];
      assert (a + b)[1..] == a[1..] + b;
      GetAllAppend(a[1..], b, name);
    }
  }

  /** `get` yields the first of the values `getAll` yields. */
  lemma {:induction false} GetIsFirstOfGetAll(entries: Entries, name: string)
    ensures Get(entries, name).None? <==> GetAll(entries, name) == []
    ensures Get(entries, name).Some? ==> Get(entries, name).value == GetAll(entries, name)[0]
  {
    if entries != [] && entries[0].0 != name {
      GetIsFirstOfGetAll(entries[1..], name);
    }
  }

  datatype UserData = UserData(
    fullName: Option<string>,
    email: Option<string>,
    userType: Option<string>,
    experience: Option<string>,
    interests: seq<string>,
    goals: Option<string>,
    newsletter: bool)

  /** The record the form's entries are collected into. */
  function CollectUserData(entries: Entries): (u: UserData)
    ensures u.newsletter <==> (exists k | 0 <= k < |entries| :: entries[k] == ("newsletter", "yes") &&
                                 forall j | 0 <= j < k :: entries[j].0 != "newsletter")
    ensures FirstValue(entries, "fullName", u.fullName)
    ensures FirstValue(entries, "email", u.email)
    ensures FirstValue(entries, "userType", u.userType)
    ensures FirstValue(entries, "experience", u.experience)
    ensures FirstValue(entries, "goals", u.goals)
    ensures forall v :: v in u.interests <==> ("interests", v) in entries
    ensures u.interests == GetAll(entries, "interests")
  {
    UserData(Get(entries, "fullName"), Get(entries, "email"), Get(entries, "userType"),
             Get(entries, "experience"), GetAll(entries, "interests"), Get(entries, "goals"),
             Get(entries, "newsletter") == Some("yes"))
  }

  const DiscordUrl := "https://discord.gg/datatribe"
  const MentorFormUrl := "https://forms.gle/T44d1rVgFbK3Kb2A6"
  const PartnerFormUrl := "https://forms.gle/vstXCHjHLiZBQxg56"

  const WelcomeMessage := "Welcome to DataTribe Collective! Redirecting to Discord..."
  const MentorMessage := "Thank you for your interest in mentoring! Redirecting to mentor application..."
  const PartnerMessage := "Thank you for your interest in partnering! Redirecting to partnership application..."
  const LearningMessage := "Welcome to DataTribe Collective! Redirecting to Discord to start your learning journey..."

  /** The alert shown and the page opened after joining. */
  datatype Route = Route(message: string, url: string)

  /** The `switch` on the user type; a missing or unknown type takes the default branch. */
  function RouteFor(userType: Option<string>): (r: Route)
    ensures r.url == MentorFormUrl <==> userType == Some("mentor")
    ensures r.url == PartnerFormUrl <==> userType == Some("partner")
    ensures r.url == DiscordUrl <==> userType != Some("mentor") && userType != Some("partner")
    ensures r.message == MentorMessage <==> userType == Some("mentor")
    ensures r.message == PartnerMessage <==> userType == Some("partner")
    ensures r.message == LearningMessage <==> userType == Some("learning-path")
    ensures r.message == WelcomeMessage <==>
              userType !in {Some("mentor"), Some("partner"), Some("learning-path")}
  {
    match userType
    case Some("community-member") => Route(WelcomeMessage, DiscordUrl)
    case Some("mentor") => Route(MentorMessage, MentorFormUrl)
    case Some("partner") => Route(PartnerMessage, PartnerFormUrl)
    case Some("learning-path") => Route(LearningMessage, DiscordUrl)
    case _ => Route(WelcomeMessage, DiscordUrl)
  }

  datatype JoinOutcome = JoinOutcome(stored: UserData, route: Route)

  /** `handleJoinForm`: what is stored, announced and opened for these entries. */
  function HandleJoinForm(entries: Entries): (r: JoinOutcome)
    ensures r.stored == CollectUserData(entries)
    ensures r.route.url in {DiscordUrl, MentorFormUrl, PartnerFormUrl}
    ensures r.route.url == MentorFormUrl <==> Get(entries, "userType") == Some("mentor")
    ensures r.route.url == PartnerFormUrl <==> Get(entries, "userType") == Some("partner")
    ensures r.route.message == RouteFor(Get(entries, "userType")).message
  {
    var user := CollectUserData(entries);
    JoinOutcome(user, RouteFor(user.userType))
  }
}
