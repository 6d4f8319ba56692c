/**
 * The shared data model of the analyzer (types.ts): cell values, records,
 * column statistics, the correlation matrix and chat messages.
 */
module Types {

  datatype Option<+T> = None | Some(value: T)

  /** A JavaScript number: a finite real or one of the IEEE special values. */
  datatype JsNumber = Finite(value: real) | PositiveInfinity | NegativeInfinity | NaN

  /** `DataValue = string | number | null | undefined`. */
  datatype DataValue = Null | Undefined | Num(number: JsNumber) | Str(text: string)

  /**
   * A record: the own properties of a JavaScript object in insertion order.
   * Property names of one object are distinct; `Get` reads the first match.
   */
  type Record = seq<(string, DataValue)>

  /** A row as the CSV reader hands it over: every cell is a string. */
  type RawRow = seq<(string, string)>

  /** `Object.keys(row)`. */
  function Keys<V>(row: seq<(string, V)>): seq<string>
  {
    seq(|row|, k requires 0 <= k < |row| => row[k].0)
  }

  /** `Object.values(row)`. */
  function Values<V>(row: seq<(string, V)>): seq<V>
  {
    seq(|row|, k requires 0 <= k < |row| => row[k].1)
  }

  /** `row[key]`: the value of the property, `undefined` when it is absent. */
  function Get(row: Record, key: string): DataValue
  {
    if |row| == 0 then Undefined
    else if row[0].0 == key then row[0].1
    else Get(row[1..], key)
  }

  /** The non-negative square root of `radicand` (the model has no `Math.sqrt`). */
  datatype SquareRoot = SquareRoot(radicand: real)

  /**
   * The real number numerator / (√sumSqX · √sumSqY), kept symbolically because
   * the model has no square root. Every value the engine stores has
   * positive sums of squares (`Valid`).
   */
  datatype Coefficient = Coefficient(numerator: real, sumSqX: real, sumSqY: real)
  {
    predicate Valid()
    {
      sumSqX > 0.0 && sumSqY > 0.0
    }

    /** The denoted value is strictly positive. */
    predicate IsPositive()
    {
      numerator > 0.0
    }

    /** The denoted value lies in [-1, 1]. */
    predicate InUnitRange()
    {
      numerator * numerator <= sumSqX * sumSqY
    }

    /** The denoted value is exactly 1. */
    predicate IsOne()
    {
      numerator > 0.0 && numerator * numerator == sumSqX * sumSqY
    }

    /** The same value with the two sums of squares exchanged. */
    function Transposed(): Coefficient
    {
      Coefficient(numerator, sumSqY, sumSqX)
    }
  }

  /** A plain real number r, written as r / (√1 · √1). */
  function Exact(r: real): Coefficient
  {
    Coefficient(r, 1.0, 1.0)
  }

  /** The absolute value |c|, `Math.abs`. */
  function Magnitude(c: Coefficient): Coefficient
  {
    Coefficient(if c.numerator < 0.0 then -c.numerator else c.numerator, c.sumSqX, c.sumSqY)
  }

  /** `ColumnStats`; an optional field that the source leaves unset is `None`. */
  datatype ColumnStats = ColumnStats(
    column: string,
    count: nat,
    missing: nat,
    isNumeric: bool,
    mean: Option<real>,
    stdDev: Option<SquareRoot>,
    min: Option<real>,
    max: Option<real>,
    unique: Option<nat>)

  /** A correlation cell: a coefficient or `null`. */
  type Cell = Option<Coefficient>

  datatype CorrelationMatrix = CorrelationMatrix(columns: seq<string>, matrix: seq<seq<Cell>>)

  /** The pair `{ stats, matrix }` returned by the insight engine. */
  datatype Insights = Insights(stats: seq<ColumnStats>, matrix: CorrelationMatrix)

  datatype Role = User | Model

  /** The value of a chat message at one moment. */
  datatype Message = Message(role: Role, content: string, isError: bool)

  /**
   * `ChatMessage`, an object whose `content` and `isError` the chat updaters
   * change in place. An unset `isError` is `false`.
   */
  class ChatMessage {
    const role: Role
    var content: string
    var isError: bool

    constructor (role: Role, content: string, isError: bool)
      ensures this.role == role && this.content == content && this.isError == isError
    {
      this.role := role;
      this.content := content;
      this.isError := isError;
    }

    function View(): Message
      reads this
    {
      Message(role, content, isError)
    }
  }
}
