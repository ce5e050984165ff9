/** The badge variant a poll status is shown with, shared by the detail page, the poll card and the admin table. */
module StatusBadge {
  import opened Types

  /** `getStatusColor`: the badge variant of a status string, 'default' for any other string. */
  function StatusColor(status: string): (r: string)
    ensures r == "default" <==> status != "active" && status != "completed" && status != "canceled"
  {
    if status == "active" then "success"
    else if status == "completed" then "secondary"
    else if status == "canceled" then "danger"
    else "default"
  }

  /** Active polls show green, completed ones grey and canceled ones red: each status its own badge, none the default one. */
  lemma StatusColorsDistinct(s: PollStatus, t: PollStatus)
    ensures StatusColor(StatusName(Active)) == "success"
    ensures StatusColor(StatusName(Completed)) == "secondary"
    ensures StatusColor(StatusName(Canceled)) == "danger"
    ensures StatusColor(StatusName(s)) != "default"
    ensures StatusColor(StatusName(s)) == StatusColor(StatusName(t)) <==> s == t
  {
  }
}
