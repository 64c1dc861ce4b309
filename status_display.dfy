/** The STATUS cell of the table: the colour and the icon drawn for a status
    value. */
module StatusDisplay {
  import opened MigrationTypes
  import RowNormalizer

  datatype Colour = Green500 | Red500 | Orange500

  datatype IconKind = MdCheckCircle | MdPending | MdOutlineError

  /** The value of a STATUS cell: one of the enumeration's members, or `None`
      for anything else (`undefined` included). */
  type StatusCell = Option<Status>

  /** The `color` ternary chain: COMPLETED, then ERROR, then PROCESSING. */
  function ColourOf(v: StatusCell): (c: Option<Colour>)
    ensures c == Some(Green500) <==> v == Some(COMPLETED)
    ensures c == Some(Red500) <==> v == Some(ERROR)
    ensures c == Some(Orange500) <==> v == Some(PROCESSING)
  {
    if v == Some(COMPLETED) then Some(Green500)
    else if v == Some(ERROR) then Some(Red500)
    else if v == Some(PROCESSING) then Some(Orange500)
    else None
  }

  /** The `as` ternary chain: COMPLETED, then PROCESSING, then ERROR. */
  function IconOf(v: StatusCell): (i: Option<IconKind>)
    ensures i == Some(MdCheckCircle) <==> v == Some(COMPLETED)
    ensures i == Some(MdPending) <==> v == Some(PROCESSING)
    ensures i == Some(MdOutlineError) <==> v == Some(ERROR)
  {
    if v == Some(COMPLETED) then Some(MdCheckCircle)
    else if v == Some(PROCESSING) then Some(MdPending)
    else if v == Some(ERROR) then Some(MdOutlineError)
    else None
  }

  /** The status a colour is drawn for. */
  function StatusOfColour(c: Colour): Status {
    match c
    case Green500 => COMPLETED
    case Red500 => ERROR
    case Orange500 => PROCESSING
  }

  /** The status an icon is drawn for. */
  function StatusOfIcon(i: IconKind): Status {
    match i
    case MdCheckCircle => COMPLETED
    case MdOutlineError => ERROR
    case MdPending => PROCESSING
  }

  /** The mapping is total; colour and icon are decided by the cell value
      alone, there is a colour exactly when there is an icon, and both name the
      status they are drawn for. */
  lemma DisplayDeterminedByStatus(v: StatusCell)
    ensures ColourOf(v).Some? <==> v.Some?
    ensures IconOf(v).Some? <==> v.Some?
    ensures v.Some? ==> StatusOfColour(ColourOf(v).value) == v.value
    ensures v.Some? ==> StatusOfIcon(IconOf(v).value) == v.value
  {
    match v
    case None =>
    case Some(st) =>
      match st
      case COMPLETED =>
      case ERROR =>
      case PROCESSING =>
  }

  /** Every row the normaliser builds is drawn green with a check, or red with
      the error icon; it is never left without an icon and never drawn pending. */
  lemma NormalizedRowsDisplay(format: Option<string> -> string, activities: seq<RawActivity>, i: nat)
    requires i < |activities|
    ensures var r := RowNormalizer.Normalize(format, activities)[i];
      var v := Some(r.status);
      (ColourOf(v) == Some(Green500) && IconOf(v) == Some(MdCheckCircle) <==>
         !RowNormalizer.SomeFailed(RowNormalizer.CollectionsOf(activities[i]))) &&
      (ColourOf(v) == Some(Red500) && IconOf(v) == Some(MdOutlineError) <==>
         RowNormalizer.SomeFailed(RowNormalizer.CollectionsOf(activities[i])))
  {
  }
}
