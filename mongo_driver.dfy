/**
 * `MongoDriver.factory`: the choice between the single-document and the
 * multi-document driver, made from the number of separate collections the
 * settings name.
 */
module MongoDriver {
  import opened Wrappers

  /** The driver a factory builds. */
  datatype DriverKind =
    | SingleDocumentMongoDriver   // the whole state in one document
    | MultiDocumentMongoDriver    // separate collections scattered by `BsonSurgeon`

  /** The `IllegalArgumentException` thrown for unsupported settings, by its message. */
  datatype FactoryFailure = IllegalArgument(message: string)

  /** The decimal digits of `n`, as Java's string concatenation writes an `int`. */
  function Decimal(n: nat): (r: string)
    ensures r != []
    ensures forall i :: 0 <= i < |r| ==> '0' <= r[i] <= '9'
  {
    if n < 10 then [DigitChar(n)] else Decimal(n / 10) + [DigitChar(n % 10)]
  }

  function DigitChar(d: nat): char
    requires d < 10
  {
    (d + '0' as int) as char
  }

  /** The number a string of decimal digits denotes. */
  function DecimalValue(s: string): nat
    requires forall i :: 0 <= i < |s| ==> '0' <= s[i] <= '9'
  {
    if s == [] then 0
    else DecimalValue(s[..|s| - 1]) * 10 + (s[|s| - 1] as int - '0' as int)
  }

  /** The count a message names can be read back from it: no two counts share a message. */
  lemma {:induction false} DecimalRoundTrip(n: nat)
    ensures DecimalValue(Decimal(n)) == n
  {
    if n >= 10 {
      DecimalRoundTrip(n / 10);
      var s := Decimal(n);
      assert s[..|s| - 1] == Decimal(n / 10);
    }
  }

  /**
   * `factory`: no separate collections selects the single-document driver,
   * one selects the multi-document driver, and more are refused.
   */
  function Factory<T>(separateCollections: seq<T>): (r: Result<DriverKind, FactoryFailure>)
    ensures r == Ok(SingleDocumentMongoDriver) <==> |separateCollections| == 0
    ensures r == Ok(MultiDocumentMongoDriver) <==> |separateCollections| == 1
    ensures r.Err? <==> |separateCollections| > 1
    ensures r.Err? ==> r.error.message == "Cannot support " + Decimal(|separateCollections|) + " separate collections"
  {
    match |separateCollections|
    case 0 => Ok(SingleDocumentMongoDriver)
    case 1 => Ok(MultiDocumentMongoDriver)
    case _ => Err(IllegalArgument("Cannot support " + Decimal(|separateCollections|) + " separate collections"))
  }

  /** Different refused counts give different messages. */
  lemma FactoryMessagesDiffer<T, U>(a: seq<T>, b: seq<U>)
    requires Factory(a).Err? && Factory(b).Err? && |a| != |b|
    ensures Factory(a).error != Factory(b).error
  {
    var m, n := Decimal(|a|), Decimal(|b|);
    DecimalRoundTrip(|a|);
    DecimalRoundTrip(|b|);
    var ma, mb := Factory(a).error.message, Factory(b).error.message;
    assert ma[|"Cannot support "|..|ma| - |" separate collections"|] == m;
    assert mb[|"Cannot support "|..|mb| - |" separate collections"|] == n;
  }
}
