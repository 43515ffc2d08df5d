/**
  Order status presentation, shared by the admin order table and the
  profile order history: four known statuses get a Persian label and a
  colour tone; any other stored value is shown verbatim in a neutral tone.
 */
module OrderStatus {

  /** The four statuses an order is expected to carry. */
  predicate IsKnown(status: string) {
    status == "processing" || status == "shipped" || status == "delivered" || status == "cancelled"
  }

  /** The colour family a status is drawn in. */
  datatype Tone = Yellow | Blue | Green | Red | Neutral

  /** The label shown for a status. */
  function StatusText(status: string): (r: string)
    ensures status == "processing" ==> r == "در حال پردازش"
    ensures status == "shipped" ==> r == "ارسال شده"
    ensures status == "delivered" ==> r == "تحویل داده شده"
    ensures status == "cancelled" ==> r == "لغو شده"
    ensures !IsKnown(status) ==> r == status
  {
    match status
      case "processing" => "در حال پردازش"
      case "shipped" => "ارسال شده"
      case "delivered" => "تحویل داده شده"
      case "cancelled" => "لغو شده"
      case _ => status
  }

  /** The colour a status is drawn in. */
  function StatusTone(status: string): (r: Tone)
    ensures r == Neutral <==> !IsKnown(status)
    ensures status == "processing" <==> r == Yellow
    ensures status == "shipped" <==> r == Blue
    ensures status == "delivered" <==> r == Green
    ensures status == "cancelled" <==> r == Red
  {
    match status
      case "processing" => Yellow
      case "shipped" => Blue
      case "delivered" => Green
      case "cancelled" => Red
      case _ => Neutral
  }

  /** A status is shown verbatim exactly when it is not one of the four, and
      the four labels tell the statuses apart. */
  lemma LabelsDistinguishStatuses(a: string, b: string)
    ensures StatusText(a) == a <==> !IsKnown(a)
    ensures IsKnown(a) && IsKnown(b) && StatusText(a) == StatusText(b) ==> a == b
    ensures IsKnown(a) ==> StatusTone(a) != Neutral
  {
  }
}
