/** src/common/decorators/user.decorator.ts: the @User() parameter
    decorator, which hands a handler request.user or a projection of it. */
module UserDecorator {
  import opened Common

  /** A JavaScript object: its own properties. */
  type Object<V> = map<string, V>

  /** The decorator's argument. */
  datatype MappedFields = Unset | Field(name: string) | Fields(names: seq<string>)

  /** What the decorator yields: request.user itself, an object built from
      some of its fields (a missing field copies as undefined, None), or one
      field's value. */
  datatype Resp<V> = Whole(user: Option<Object<V>>) | Picked(obj: Object<Option<V>>) | One(value: Option<V>)

  /** `obj[field]`; undefined (None) for a missing property. */
  function Get<V>(obj: Object<V>, field: string): (v: Option<V>)
    ensures v.Some? <==> field in obj
    ensures v.Some? ==> v.value == obj[field]
  {
    if field in obj then Some(obj[field]) else None
  }

  /** What reading a property of undefined throws. */
  function ReadOfUndefined(field: string): (e: Exception)
    ensures e.TypeError?
  {
    TypeError("Cannot read properties of undefined (reading '" + field + "')")
  }

  /** The decorator's projection. An unset argument, or the empty string
      (falsy), gives request.user unchanged; a list gives an object with
      exactly those keys, each copied from request.user, the empty list an
      empty object; a single name gives that field. Reading a field of an
      absent user throws. */
  method Project<V>(user: Option<Object<V>>, mappedFields: MappedFields) returns (r: Result<Resp<V>>)
    ensures mappedFields.Unset? || mappedFields == Field("") ==> r == Ok(Whole(user))
    ensures mappedFields.Field? && mappedFields.name != "" ==>
              r == if user.Some? then Ok(One(Get(user.value, mappedFields.name)))
                   else Err(ReadOfUndefined(mappedFields.name))
    ensures mappedFields.Fields? && user.None? && |mappedFields.names| > 0 ==>
              r == Err(ReadOfUndefined(mappedFields.names[0]))
    ensures mappedFields.Fields? && (user.Some? || |mappedFields.names| == 0) ==>
              r.Ok? && r.value.Picked? &&
              r.value.obj.Keys == set f | f in mappedFields.names &&
              forall f :: f in r.value.obj ==> user.Some? && r.value.obj[f] == Get(user.value, f)
  {
    var resp: Resp<V> := Whole(user);
    match mappedFields {
      case Unset =>
      case Field(name) =>
        if name != "" {
          if user.None? {
            return Err(ReadOfUndefined(name));
          }
          resp := One(Get(user.value, name));
        }
      case Fields(names) =>
        var obj: Object<Option<V>> := map[];
        var i := 0;
        while i < |names|
          invariant 0 <= i <= |names|
          invariant obj.Keys == set f | f in names[..i]
          invariant user.None? ==> i == 0
          invariant forall f :: f in obj ==> user.Some? && obj[f] == Get(user.value, f)
        {
          if user.None? {
            return Err(ReadOfUndefined(names[i]));
          }
          obj := obj[names[i] := Get(user.value, names[i])];
          assert names[..i + 1] == names[..i] + [names[i]];
          i := i + 1;
        }
        assert names[..i] == names;
        resp := Picked(obj);
    }
    r := Ok(resp);
  }
}
