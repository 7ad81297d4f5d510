/**
 * The value serialiser of Parser.cs (class MYSqlParser): custom writers looked up
 * by type, the illegal-character filter that guards string literals, and the
 * rendering of a value as SQL literal text.
 */
module Parser {
  import opened Wrappers

  /** The run-time types the library distinguishes (a field's `FieldType`, `typeof(T)`). */
  datatype ClrType =
    | StringType | IntType | UIntType | LongType | ULongType | BoolType | DateTimeType
    | OtherType(name: string)

  /**
   * A boxed value as the serialiser sees it: `null`, a `string`, or any other object.
   * For the last kind `text` is what its `ToString()` returns; the model does not
   * interpret it.
   */
  datatype Value = Null | Str(s: string) | Scalar(text: string)

  /** SQLCustomConversion: the type stored in the table and the callback that rebuilds the object. */
  datatype CustomConversion = CustomConversion(typeInTable: ClrType, callback: Value -> Value)

  /** The characters `<`, `>` and `'` that a new parser refuses inside string literals. */
  const DefaultIllegalChars: set<char> := {'<', '>', '\''}

  /** No character of `s` belongs to `illegal`. */
  predicate Legal(s: string, illegal: set<char>)
  {
    forall i :: 0 <= i < |s| ==> s[i] !in illegal
  }

  /** `a` can be obtained from `b` by deleting characters: the characters of `a` occur in `b` in the same order. */
  predicate Subsequence(a: string, b: string)
  {
    if |a| == 0 then true
    else if |b| == 0 then false
    else (a[0] == b[0] && Subsequence(a[1..], b[1..])) || Subsequence(a, b[1..])
  }

  /** `s` with every character of `illegal` deleted. */
  function Purified(s: string, illegal: set<char>): (r: string)
    ensures |r| <= |s|
    ensures Legal(r, illegal)
  {
    if |s| == 0 then ""
    else if s[0] in illegal then Purified(s[1..], illegal)
    else [s[0]] + Purified(s[1..], illegal)
  }

  /** Filtering distributes over concatenation, so the text can be filtered piece by piece. */
  lemma {:induction false} PurifiedAppend(a: string, b: string, illegal: set<char>)
    ensures Purified(a + b, illegal) == Purified(a, illegal) + Purified(b, illegal)
  {
    if |a| > 0 {
      assert (a + b)[1..] == a[1..] + b;
      PurifiedAppend(a[1..], b, illegal);
    } else {
      assert a + b == b;
    }
  }

  /** A string without illegal characters is left as it is. */
  lemma {:induction false} PurifiedOfLegal(s: string, illegal: set<char>)
    requires Legal(s, illegal)
    ensures Purified(s, illegal) == s
  {
    if |s| > 0 {
      PurifiedOfLegal(s[1..], illegal);
    }
  }

  /** Purifying twice is purifying once. */
  lemma {:induction false} PurifiedIdempotent(s: string, illegal: set<char>)
    ensures Purified(Purified(s, illegal), illegal) == Purified(s, illegal)
  {
    PurifiedOfLegal(Purified(s, illegal), illegal);
  }

  /** The filter keeps the length exactly when there was nothing to delete. */
  lemma {:induction false} PurifiedKeepsLengthIffLegal(s: string, illegal: set<char>)
    ensures |Purified(s, illegal)| == |s| <==> Legal(s, illegal)
  {
    if |s| > 0 {
      PurifiedKeepsLengthIffLegal(s[1..], illegal);
      if s[0] !in illegal {
        assert Legal(s, illegal) <==> Legal(s[1..], illegal) by {
          if Legal(s[1..], illegal) {
            forall i | 0 <= i < |s| ensures s[i] !in illegal {
              if i > 0 { assert s[i] == s[1..][i - 1]; }
            }
          }
        }
      } else {
        assert !Legal(s, illegal) by { assert s[0] in illegal; }
      }
    }
  }

  /** Legal characters keep their relative order: the result is a subsequence of the input. */
  lemma {:induction false} PurifiedIsSubsequence(s: string, illegal: set<char>)
    ensures Subsequence(Purified(s, illegal), s)
  {
    if |s| > 0 {
      PurifiedIsSubsequence(s[1..], illegal);
      var r := Purified(s, illegal);
      if s[0] !in illegal {
        assert r[0] == s[0] && r[1..] == Purified(s[1..], illegal);
      }
    }
  }

  /** Every occurrence of a legal character survives, and no illegal one does. */
  lemma {:induction false} PurifiedCounts(s: string, illegal: set<char>, c: char)
    ensures multiset(Purified(s, illegal))[c] == if c in illegal then 0 else multiset(s)[c]
  {
    if |s| > 0 {
      PurifiedCounts(s[1..], illegal, c);
      assert s == [s[0]] + s[1..];
      assert multiset(s) == multiset([s[0]]) + multiset(s[1..]);
      if s[0] !in illegal {
        assert multiset(Purified(s, illegal)) == multiset([s[0]]) + multiset(Purified(s[1..], illegal));
      }
    }
  }

  /**
   * AddToDictiaonry: copy every entry of `addition` into `source`, overwriting
   * entries with the same key; a missing (`null`) addition changes nothing.
   */
  method AddToDictionary<K, V>(source: map<K, V>, addition: Option<map<K, V>>) returns (merged: map<K, V>)
    ensures addition.None? ==> merged == source
    ensures addition.Some? ==> merged.Keys == source.Keys + addition.value.Keys
    ensures addition.Some? ==> forall k :: k in addition.value ==> merged[k] == addition.value[k]
    ensures addition.Some? ==> forall k :: k in source && k !in addition.value ==> merged[k] == source[k]
  {
    merged := source;
    if addition.None? {
      return;
    }
    var entries := addition.value;
    var pending := entries.Keys;
    while pending != {}
      invariant pending <= entries.Keys
      invariant merged.Keys == source.Keys + (entries.Keys - pending)
      invariant forall k :: k in entries && k !in pending ==> merged[k] == entries[k]
      invariant forall k :: k in source && (k !in entries || k in pending) ==> merged[k] == source[k]
      decreases pending
    {
      var k :| k in pending;
      merged := merged[k := entries[k]];
      pending := pending - {k};
    }
  }

  class MySqlParser {
    /** CustomWritings: how a value of a given type is turned into something storable. */
    var customWritings: map<ClrType, Value -> Value>
    /** CustomReadings: how a stored value is turned back into an object of a given type. */
    var customReadings: map<ClrType, CustomConversion>
    /** IllegalChars: characters removed from every string literal. */
    var illegalChars: set<char>
    /** CustomMYSQLTypes: column types that override the built-in type mapping. */
    var customMySqlTypes: map<ClrType, string>

    /**
     * The defaults hold one entry each, for DateTime; `dateTimeWriter` and
     * `dateTimeReader` stand for the two millisecond conversions, which the model
     * leaves uninterpreted. The caller's dictionaries are merged over the defaults.
     */
    constructor (dateTimeWriter: Value -> Value, dateTimeReader: Value -> Value,
                 writings: Option<map<ClrType, Value -> Value>> := None,
                 readings: Option<map<ClrType, CustomConversion>> := None)
      ensures illegalChars == DefaultIllegalChars
      ensures customMySqlTypes == map[]
      ensures writings.None? ==> customWritings == map[DateTimeType := dateTimeWriter]
      ensures writings.Some? ==> customWritings.Keys == {DateTimeType} + writings.value.Keys
      ensures writings.Some? ==> forall t :: t in writings.value ==> customWritings[t] == writings.value[t]
      ensures writings.Some? && DateTimeType !in writings.value ==> customWritings[DateTimeType] == dateTimeWriter
      ensures readings.None? ==> customReadings == map[DateTimeType := CustomConversion(ULongType, dateTimeReader)]
      ensures readings.Some? ==> customReadings.Keys == {DateTimeType} + readings.value.Keys
      ensures readings.Some? ==> forall t :: t in readings.value ==> customReadings[t] == readings.value[t]
      ensures readings.Some? && DateTimeType !in readings.value ==>
                customReadings[DateTimeType] == CustomConversion(ULongType, dateTimeReader)
    {
      var w := AddToDictionary<ClrType, Value -> Value>(map[DateTimeType := dateTimeWriter], writings);
      var r := AddToDictionary<ClrType, CustomConversion>(map[DateTimeType := CustomConversion(ULongType, dateTimeReader)], readings);
      customWritings := w;
      customReadings := r;
      illegalChars := DefaultIllegalChars;
      customMySqlTypes := map[];
    }

    /** PurifyString: scan the text once and keep each character that is not illegal. */
    method PurifyString(str: string) returns (r: string)
      ensures r == Purified(str, illegalChars)
    {
      var builder := "";
      var charIndex := 0;
      while charIndex < |str|
        invariant 0 <= charIndex <= |str|
        invariant builder == Purified(str[..charIndex], illegalChars)
      {
        var c := str[charIndex];
        if c !in illegalChars {
          builder := builder + [c];
        }
        PurifiedAppend(str[..charIndex], [c], illegalChars);
        assert str[..charIndex + 1] == str[..charIndex] + [c];
        charIndex := charIndex + 1;
      }
      assert str[..|str|] == str;
      r := builder;
    }

    /** Parse: the custom writer registered for `t`, if any, applied to `value`. */
    function Parse(value: Value, t: ClrType): Value
      reads this
    {
      if t in customWritings then customWritings[t](value) else value
    }

    /**
     * GetSQLString: `null` for a null parameter, a single-quoted purified string for
     * a string, and the object's own text otherwise.
     */
    function GetSqlString(obj: Value, t: ClrType): (r: string)
      reads this
      ensures Parse(obj, t).Null? ==> r == "null"
      ensures Parse(obj, t).Scalar? ==> r == Parse(obj, t).text
      ensures Parse(obj, t).Str? ==>
                && IsQuoted(r)
                && Unquoted(r) == Purified(Parse(obj, t).s, illegalChars)
                && Legal(Unquoted(r), illegalChars)
      ensures Parse(obj, t).Str? && '\'' in illegalChars ==>
                forall i :: 0 < i < |r| - 1 ==> r[i] != '\''
    {
      match Parse(obj, t)
      case Null => "null"
      case Str(s) => "'" + Purified(s, illegalChars) + "'"
      case Scalar(text) => text
    }
  }

  /**
   * Parse on a parser built from the caller's writers: the caller's writer for
   * its type, the default DateTime writer for DateTime unless the caller
   * replaced it, and the value itself for every other type.
   */
  lemma ParseWithWriters(p: MySqlParser, dateTimeWriter: Value -> Value,
                         writings: map<ClrType, Value -> Value>, v: Value, t: ClrType)
    requires p.customWritings.Keys == {DateTimeType} + writings.Keys
    requires forall u :: u in writings ==> p.customWritings[u] == writings[u]
    requires DateTimeType !in writings ==> p.customWritings[DateTimeType] == dateTimeWriter
    ensures t in writings ==> p.Parse(v, t) == writings[t](v)
    ensures t == DateTimeType && t !in writings ==> p.Parse(v, t) == dateTimeWriter(v)
    ensures t != DateTimeType && t !in writings ==> p.Parse(v, t) == v
  {
  }

  /** Text that starts and ends with a single quote. */
  predicate IsQuoted(r: string)
  {
    |r| >= 2 && r[0] == '\'' && r[|r| - 1] == '\''
  }

  /** The text between the enclosing quotes of a literal. */
  function Unquoted(r: string): string
    requires IsQuoted(r)
  {
    r[1..|r| - 1]
  }

  /**
   * A string that holds no illegal character, written with no custom writer for
   * its type, comes back unchanged from between the quotes.
   */
  lemma StringLiteralRoundTrip(p: MySqlParser, s: string, t: ClrType)
    requires t !in p.customWritings
    requires Legal(s, p.illegalChars)
    ensures IsQuoted(p.GetSqlString(Str(s), t))
    ensures Unquoted(p.GetSqlString(Str(s), t)) == s
  {
    PurifiedOfLegal(s, p.illegalChars);
  }
}
