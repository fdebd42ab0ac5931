/**
 The decimal serializer: the exact sequence of calls it makes on the Hessian
 output stream for one `decimal` value. The stream itself is not modelled;
 the two answers it gives (`AddRef` and the sentinel returned by
 `WriteObjectBegin`) are inputs, and the decimal's text is an opaque string.
 */
module DecimalCodec {
  import opened HessianTypes

  /** The wire type name of a decimal (PROT_DECIMAL_TYPE). */
  const DecimalTypeName := "decimal"

  /** The name of the single field a decimal is written with. */
  const ValueField := "value"

  /** One call on the output stream. */
  datatype Event =
    | Null                  // WriteNull()
    | Begin(name: string)   // WriteObjectBegin(name)
    | Str(s: string)        // WriteString(s)
    | FieldLen(n: int)      // WriteClassFieldLength(n)
    | MapEnd                // WriteMapEnd()

  /** The three meanings of the sentinel `WriteObjectBegin` returns. */
  datatype ClassState =
    | WrittenAsMap   // below -1: the object is framed as a map and closed by a map end
    | NewClass       // exactly -1: the class definition has not been sent yet
    | KnownClass     // 0 or more: the definition was sent, only field values follow

  function Classify(iref: int): ClassState {
    if iref < -1 then WrittenAsMap
    else if iref == -1 then NewClass
    else KnownClass
  }

  /** `WriteObject(objData, out)`: `alreadyWritten` is what `AddRef(objData)`
      answered, `value` is `None` for a null object and the decimal's text
      otherwise, and `iref` is what `WriteObjectBegin` answers when it is
      called. The result is the list of further calls, in order. */
  function WriteObject(alreadyWritten: bool, value: Option<string>, iref: int): (trace: seq<Event>)
    ensures alreadyWritten ==> trace == []
    ensures !alreadyWritten && value.None? ==> trace == [Null]
    ensures !alreadyWritten && value.Some? ==> |trace| >= 2 && trace[0] == Begin(DecimalTypeName)
    ensures !alreadyWritten && value.Some? ==> trace[|trace| - 1] == Str(value.value) || trace[|trace| - 1] == MapEnd
    ensures forall i :: 0 <= i < |trace| && trace[i].FieldLen? ==> trace[i].n == 1 && trace[i + 1] == Str(ValueField)
  {
    if alreadyWritten then []
    else if value.None? then [Null]
    else
      var text := value.value;
      match Classify(iref)
      case WrittenAsMap => [Begin(DecimalTypeName), Str(ValueField), Str(text), MapEnd]
      case NewClass => [Begin(DecimalTypeName), FieldLen(1), Str(ValueField), Begin(DecimalTypeName), Str(text)]
      case KnownClass => [Begin(DecimalTypeName), Str(text)]
  }

  /** What a trace of one decimal write carries, read back off the trace. */
  datatype Written = BackReference | NullValue | Value(text: string) | Malformed

  /** Reads a trace of `WriteObject` back: an empty trace is a
      back-reference, a lone null is a null value, and the three framings of
      a decimal each yield the text in their last string. */
  function ReadTrace(trace: seq<Event>): (w: Written)
    ensures w.Value? ==> |trace| >= 2 && trace[0] == Begin(DecimalTypeName) && Str(w.text) in trace
    ensures w.BackReference? <==> trace == []
  {
    if trace == [] then BackReference
    else if trace == [Null] then NullValue
    else if |trace| == 2 && trace[0] == Begin(DecimalTypeName) && trace[1].Str? then
      Value(trace[1].s)
    else if |trace| == 4 && trace[0] == Begin(DecimalTypeName) && trace[1] == Str(ValueField)
         && trace[2].Str? && trace[3] == MapEnd then
      Value(trace[2].s)
    else if |trace| == 5 && trace[0] == Begin(DecimalTypeName) && trace[1] == FieldLen(1)
         && trace[2] == Str(ValueField) && trace[3] == Begin(DecimalTypeName) && trace[4].Str? then
      Value(trace[4].s)
    else Malformed
  }

  /** Every trace the serializer produces reads back as what was written,
      whatever sentinel the stream answered. */
  lemma WriteThenRead(alreadyWritten: bool, value: Option<string>, iref: int)
    ensures ReadTrace(WriteObject(alreadyWritten, value, iref)) ==
      if alreadyWritten then BackReference
      else if value.None? then NullValue
      else Value(value.value)
  {
    if !alreadyWritten && value.Some? {
      var trace := WriteObject(alreadyWritten, value, iref);
      match Classify(iref)
      case WrittenAsMap =>
        assert trace == [Begin(DecimalTypeName), Str(ValueField), Str(value.value), MapEnd];
      case NewClass =>
        assert trace == [Begin(DecimalTypeName), FieldLen(1), Str(ValueField), Begin(DecimalTypeName), Str(value.value)];
      case KnownClass =>
        assert trace == [Begin(DecimalTypeName), Str(value.value)];
    }
  }

  /** The full trace for each of the three sentinel cases. */
  lemma TraceBySentinel(text: string, iref: int)
    ensures iref < -1 ==>
      WriteObject(false, Some(text), iref) == [Begin(DecimalTypeName), Str(ValueField), Str(text), MapEnd]
    ensures iref == -1 ==>
      WriteObject(false, Some(text), iref) ==
      [Begin(DecimalTypeName), FieldLen(1), Str(ValueField), Begin(DecimalTypeName), Str(text)]
    ensures iref >= 0 ==>
      WriteObject(false, Some(text), iref) == [Begin(DecimalTypeName), Str(text)]
  {
  }

  /** On every path that writes a decimal, its text is written exactly once
      and the field name at most once; the field name is written exactly
      when the stream did not report the class as already known. The text
      of a number, in any culture, is never the field name itself. */
  lemma TextWrittenOnce(text: string, iref: int)
    requires text != ValueField
    ensures multiset(WriteObject(false, Some(text), iref))[Str(text)] == 1
    ensures multiset(WriteObject(false, Some(text), iref))[Str(ValueField)] == if iref >= 0 then 0 else 1
  {
    TraceBySentinel(text, iref);
  }

  /** The field count declared for a new class is the number of field names
      that follow it. */
  lemma DeclaredFieldCountMatches(text: string)
    requires text != ValueField
    ensures var trace := WriteObject(false, Some(text), -1);
      trace[1] == FieldLen(multiset(trace)[Str(ValueField)])
  {
  }
}
