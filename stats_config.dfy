/** The summary cards at the top of the dashboard: one per status bucket, in
    display order, each with the key it filters on, its caption and the colour
    suffix of its text (src/services/utils.js). */
module StatsConfig {

  datatype StatCard = StatCard(key: string, caption: string, className: string)

  const Cards: seq<StatCard> := [
    StatCard("all", "All", "secondary-emphasis"),
    StatCard("this_month", "THIS MONTH", "warning-emphasis"),
    StatCard("this_week", "THIS WEEK", "warning"),
    StatCard("on_today", "TODAY", "danger"),
    StatCard("sent_received", "SENT/RECEIVED", "success"),
    StatCard("overdue", "OVERDUE", "danger-emphasis")
  ]

  /** The number a card shows: `stats[key] || 0`, where `stats` is the summary
      the server returned (a missing key reads as undefined, which is falsy). */
  function CardCount(stats: map<string, int>, key: string): (n: int)
    ensures key in stats ==> n == stats[key]
    ensures key !in stats ==> n == 0
  {
    if key in stats && stats[key] != 0 then stats[key] else 0
  }

  /** The card whose key the filter holds is highlighted with a border. Every
      card's key is non-empty, so the empty filter the page starts with
      highlights no card, not even "All". */
  predicate Highlighted(card: StatCard, filterStatus: string)
    ensures card in Cards && filterStatus == "" ==> !Highlighted(card, filterStatus)
  {
    filterStatus == card.key
  }

  /** A sanity check of the table: no two cards share a key, so a status
      filter highlights at most one card. */
  lemma {:induction false} AtMostOneHighlighted(filterStatus: string, i: nat, j: nat)
    requires i < |Cards| && j < |Cards|
    requires Highlighted(Cards[i], filterStatus) && Highlighted(Cards[j], filterStatus)
    ensures i == j
  {
  }
}
