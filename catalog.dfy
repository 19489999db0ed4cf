/** The enumerations of the indicator catalogue (`Indicator.Sector`,
    `Indicator.Category`, `Indicator.Type`, `IndicatorValue.Status`) and the
    strings they are stored as. */
module Catalog {

  datatype Sector = Health | Education {
    function Value(): string {
      match this
      case Health => "health"
      case Education => "education"
    }
  }

  datatype Category = Access | Quality | Resources | Outcomes | Infrastructure | Personnel | Finance {
    function Value(): string {
      match this
      case Access => "access"
      case Quality => "quality"
      case Resources => "resources"
      case Outcomes => "outcomes"
      case Infrastructure => "infrastructure"
      case Personnel => "personnel"
      case Finance => "finance"
    }

    /** The place of the stored code when the database sorts the column. */
    function Rank(): (r: nat)
      ensures r < 7
    {
      match this
      case Access => 0
      case Finance => 1
      case Infrastructure => 2
      case Outcomes => 3
      case Personnel => 4
      case Quality => 5
      case Resources => 6
    }
  }

  /** The seven category codes start with seven different small letters, so
      sorting them by their text, under any collation that orders the small
      ASCII letters alphabetically, sorts them by `Rank`. */
  lemma {:induction false} RankFollowsCode(a: Category, b: Category)
    ensures |a.Value()| > 0 && |b.Value()| > 0
    ensures a.Rank() < b.Rank() <==> a.Value()[0] < b.Value()[0]
    ensures a.Rank() == b.Rank() <==> a == b
  {
    match a
    case Access =>
    case Finance =>
    case Infrastructure =>
    case Outcomes =>
    case Personnel =>
    case Quality =>
    case Resources =>
  }

  datatype IndicatorType = Number | Percentage | Ratio | Currency | Count {
    function Value(): string {
      match this
      case Number => "number"
      case Percentage => "percentage"
      case Ratio => "ratio"
      case Currency => "currency"
      case Count => "count"
    }
  }

  datatype ValueStatus = Draft | Pending | Validated | Rejected {
    function Value(): string {
      match this
      case Draft => "draft"
      case Pending => "pending"
      case Validated => "validated"
      case Rejected => "rejected"
    }
  }
}
