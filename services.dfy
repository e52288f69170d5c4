/**
 * The service cards of the Services page: each card previews the first three
 * features and the first three technologies and counts the rest in a
 * "+N" label; the card's dialog lists everything.
 */
module Services {
  import opened Seqs

  /** The fields of a service that the cards read. */
  datatype Service = Service(id: nat, title: string, features: seq<string>, technologies: seq<string>)

  /** How many entries a card shows before it falls back to a count. */
  const PreviewLength := 3

  /** A shortened list: the entries drawn, and the "+N" count when some are left out. */
  datatype Preview<T> = Preview(shown: seq<T>, more: Option<nat>)

  function Min(a: nat, b: nat): nat {
    if a <= b then a else b
  }

  /** `items.slice(0, 3)` followed by `+{items.length - 3}` when `items.length > 3`. */
  function Truncate<T>(items: seq<T>): (r: Preview<T>)
    ensures |r.shown| == Min(PreviewLength, |items|) && r.shown == items[..|r.shown|]
    ensures r.more.Some? <==> |items| > PreviewLength
    ensures r.more.Some? ==> |r.shown| + r.more.value == |items|
    ensures r.more.None? ==> r.shown == items
  {
    var shown := if |items| <= PreviewLength then items else items[..PreviewLength];
    Preview(shown, if |items| > PreviewLength then Some(|items| - PreviewLength) else None)
  }

  /** What a card and its dialog draw. */
  datatype ServiceView = ServiceView(
    cardFeatures: Preview<string>,
    cardTechnologies: Preview<string>,
    dialogFeatures: seq<string>,
    dialogTechnologies: seq<string>)

  /** The card previews the dialog's lists: each preview is a prefix of the full list the dialog draws. */
  function View(s: Service): (r: ServiceView)
    ensures r.dialogFeatures == s.features && r.dialogTechnologies == s.technologies
    ensures |r.cardFeatures.shown| <= |r.dialogFeatures| && r.cardFeatures.shown == r.dialogFeatures[..|r.cardFeatures.shown|]
    ensures |r.cardTechnologies.shown| <= |r.dialogTechnologies| && r.cardTechnologies.shown == r.dialogTechnologies[..|r.cardTechnologies.shown|]
    ensures r.cardFeatures.more.Some? <==> |s.features| > PreviewLength
    ensures r.cardTechnologies.more.Some? <==> |s.technologies| > PreviewLength
  {
    ServiceView(Truncate(s.features), Truncate(s.technologies), s.features, s.technologies)
  }

  /** Nothing a card leaves out goes uncounted, and the dialog draws exactly what the card hides after what it shows. */
  lemma ViewAccountsForEverything(s: Service)
    ensures var v := View(s);
      v.dialogFeatures == v.cardFeatures.shown + s.features[|v.cardFeatures.shown|..] &&
      |s.features[|v.cardFeatures.shown|..]| == (if v.cardFeatures.more.Some? then v.cardFeatures.more.value else 0)
    ensures var v := View(s);
      v.dialogTechnologies == v.cardTechnologies.shown + s.technologies[|v.cardTechnologies.shown|..] &&
      |s.technologies[|v.cardTechnologies.shown|..]| == (if v.cardTechnologies.more.Some? then v.cardTechnologies.more.value else 0)
  {
    var v := View(s);
    assert s.features == v.cardFeatures.shown + s.features[|v.cardFeatures.shown|..];
    assert s.technologies == v.cardTechnologies.shown + s.technologies[|v.cardTechnologies.shown|..];
  }

  /** The first entry of `services`, restricted to the fields above. */
  const WebDevelopment := Service(1, "Web Development",
    ["Responsive Design", "Progressive Web Apps", "API Integration", "Performance Optimization"],
    ["React", "Vue.js", "Angular", "Node.js", "Python", "PHP"])

  /** Its card shows three of four features with "+1 more features" and three of six technologies with "+3". */
  lemma WebDevelopmentCard()
    ensures View(WebDevelopment).cardFeatures.more == Some(1)
    ensures View(WebDevelopment).cardTechnologies.more == Some(3)
  {
  }
}
