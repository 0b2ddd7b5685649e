/**
 * The Avalonia value converter that shows a bound path as its file name. Convert has three
 * outcomes (a file name, null, or an error notification); ConvertBack is not supported.
 */
module PathToFileNameConverter {
  import opened Wrappers
  import opened Exceptions
  import opened Paths

  /** The bound value handed to Convert (typed `object?`). */
  datatype BoundValue = Null | Text(text: string) | Boxed(typeName: string)

  /** The binding's target type; only whether a value of it can be assigned to string matters. */
  datatype TargetType = TargetType(name: string, assignableToString: bool)

  /** What Convert returns: a string, null, or a BindingNotification carrying an error. */
  datatype Converted = FileName(name: string) | NullResult | BindingError(error: Error)

  function Convert(value: BoundValue, targetType: TargetType): (r: Converted)
    ensures r.FileName? <==> value.Text? && targetType.assignableToString
    ensures r.NullResult? <==> value.Null?
    ensures r.BindingError? <==> !value.Null? && !(value.Text? && targetType.assignableToString)
    ensures r.BindingError? ==> r.error == InvalidCast
    ensures r.FileName? ==> r.name == GetFileName(value.text)
    ensures r.FileName? ==> EndsWith(value.text, r.name) && HasNoSeparator(r.name)
  {
    if value.Text? && targetType.assignableToString then FileName(GetFileName(value.text))
    else if value.Null? then NullResult
    else BindingError(InvalidCast)
  }

  /** The reverse direction always throws NotSupportedException. */
  function ConvertBack(value: BoundValue, targetType: TargetType): (r: Outcome<Error>)
    ensures r == Fail(NotSupported)
  {
    Fail(NotSupported)
  }

  /** Converting a converted name again gives the same name back. */
  lemma ConvertIdempotent(value: BoundValue, targetType: TargetType)
    requires Convert(value, targetType).FileName?
    ensures Convert(Text(Convert(value, targetType).name), targetType) == Convert(value, targetType)
  {
    GetFileNameIdempotent(value.text);
  }
}
