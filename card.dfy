/**
 * The career card as a view-model: which optional sections it shows and how
 * it shortens the achievement list.
 */
module Card {
  import opened Optional

  datatype CardProps = CardProps(
    title: string,
    image: string,
    location: string,
    company: Option<string>,
    duration: Option<string>,
    achievements: Option<seq<string>>)

  /** The listed achievements and, when some are hidden, the count after "+N more". */
  datatype AchievementsSection = AchievementsSection(listed: seq<string>, more: Option<nat>)

  datatype CardView = CardView(
    title: string,
    image: string,
    location: string,
    companyLine: Option<string>,
    durationBadge: Option<string>,
    achievements: Option<AchievementsSection>)

  /** How many achievements the card lists before summarising the rest. */
  const Listed: nat := 2

  /** `prop && <section>`: an absent prop and the empty string are both falsy in JavaScript. */
  function Truthy(prop: Option<string>): (shown: Option<string>)
    ensures shown.Some? <==> prop.Some? && prop.value != ""
    ensures shown.Some? ==> shown == prop
  {
    if prop.Some? && prop.value != "" then prop else None
  }

  /** `achievements.slice(0, 2)` followed by a "+N more" line when there are more than two. */
  function Summarise(achievements: seq<string>): (sec: AchievementsSection)
    ensures |sec.listed| <= Listed
    ensures |sec.listed| == if |achievements| < Listed then |achievements| else Listed
    ensures forall i :: 0 <= i < |sec.listed| ==> sec.listed[i] == achievements[i]
    ensures sec.more.Some? <==> |achievements| > Listed
    ensures sec.more.Some? ==> |sec.listed| + sec.more.value == |achievements|
  {
    var n := if |achievements| < Listed then |achievements| else Listed;
    AchievementsSection(achievements[..n], if |achievements| > Listed then Some(|achievements| - Listed) else None)
  }

  /** The listed achievements followed by the hidden ones give back the whole list, in order. */
  lemma SummaryLosesNothing(achievements: seq<string>)
    ensures Summarise(achievements).listed + achievements[|Summarise(achievements).listed|..] == achievements
    ensures Summarise(achievements).more.Some? ==>
      Summarise(achievements).more.value == |achievements[|Summarise(achievements).listed|..]|
  {
    var listed := Summarise(achievements).listed;
    assert listed == achievements[..|listed|];
  }

  /** The card: company line and duration badge only for truthy props; achievements only when there are some. */
  function RenderCard(p: CardProps): (v: CardView)
    ensures v.title == p.title && v.image == p.image && v.location == p.location
    ensures v.companyLine.Some? <==> p.company.Some? && p.company.value != ""
    ensures v.durationBadge.Some? <==> p.duration.Some? && p.duration.value != ""
    ensures v.achievements.Some? <==> p.achievements.Some? && |p.achievements.value| > 0
    ensures v.achievements.Some? ==> |v.achievements.value.listed| >= 1
    ensures v.achievements.Some? ==> v.achievements.value == Summarise(p.achievements.value)
    ensures v.companyLine.Some? ==> v.companyLine == p.company
    ensures v.durationBadge.Some? ==> v.durationBadge == p.duration
  {
    var section :=
      if p.achievements.Some? && |p.achievements.value| > 0 then Some(Summarise(p.achievements.value))
      else None;
    CardView(p.title, p.image, p.location, Truthy(p.company), Truthy(p.duration), section)
  }
}
