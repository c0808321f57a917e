/** Ordering inputs of the GraphQL API: directions, fields and their
    defaults (src/order_datatypes.rs). */
module OrderDatatypes {
  import opened Wrappers

  datatype OrderDirection = Asc | Desc

  /** `OrderDirection::default()`. */
  const DEFAULT_DIRECTION: OrderDirection := Asc

  /** `From<OrderDirection> for i32`: the MongoDB sort value. */
  function DirectionToI32(d: OrderDirection): (r: int)
    ensures r == 1 || r == -1
    ensures r == 1 <==> d == Asc
  {
    match d
    case Asc => 1
    case Desc => -1
  }

  /** The i32 encoding never yields 0 and tells the two directions apart. */
  lemma DirectionEncodingInjective(a: OrderDirection, b: OrderDirection)
    ensures DirectionToI32(a) != 0
    ensures DirectionToI32(a) == DirectionToI32(b) ==> a == b
  {
  }

  datatype OrderOrderField = Id | UserId | Name | CreatedAt | LastUpdatedAt

  const DEFAULT_ORDER_FIELD: OrderOrderField := Id

  /** `OrderOrderField::as_str`: the document field that orders are sorted by. */
  function OrderFieldName(f: OrderOrderField): (r: string)
    ensures f == Id <==> r == "_id"
  {
    match f
    case Id => "_id"
    case UserId => "user._id"
    case Name => "name"
    case CreatedAt => "created_at"
    case LastUpdatedAt => "last_updated_at"
  }

  /** The five field names are pairwise distinct. */
  lemma OrderFieldNamesDistinct(f: OrderOrderField, g: OrderOrderField)
    ensures OrderFieldName(f) == OrderFieldName(g) ==> f == g
  {
  }

  datatype CommonOrderField = CommonId

  const DEFAULT_COMMON_FIELD: CommonOrderField := CommonId

  /** `CommonOrderField::as_str`. */
  function CommonFieldName(f: CommonOrderField): (r: string)
    ensures r == OrderFieldName(Id)
  {
    "_id"
  }

  datatype OrderOrderInput = OrderOrderInput(direction: Option<OrderDirection>, field: Option<OrderOrderField>)
  datatype CommonOrderInput = CommonOrderInput(direction: Option<OrderDirection>, field: Option<CommonOrderField>)

  /** `OrderOrderInput::default()`: ascending by `_id`. */
  function DefaultOrderOrderInput(): (r: OrderOrderInput)
    ensures r.direction == Some(Asc) && r.field.Some?
    ensures OrderFieldName(r.field.value) == "_id"
  {
    OrderOrderInput(Some(DEFAULT_DIRECTION), Some(DEFAULT_ORDER_FIELD))
  }

  /** `CommonOrderInput::default()`: ascending by `_id`. */
  function DefaultCommonOrderInput(): (r: CommonOrderInput)
    ensures r.direction == Some(Asc) && r.field.Some?
    ensures CommonFieldName(r.field.value) == "_id"
  {
    CommonOrderInput(Some(DEFAULT_DIRECTION), Some(DEFAULT_COMMON_FIELD))
  }

  /** `order_by.unwrap_or_default().direction.unwrap_or_default()`: the
      direction that the nested lists are sorted in. */
  function SortDirection(orderBy: Option<CommonOrderInput>): (d: OrderDirection)
    ensures d == Desc <==> orderBy.Some? && orderBy.value.direction == Some(Desc)
  {
    orderBy.GetOr(DefaultCommonOrderInput()).direction.GetOr(DEFAULT_DIRECTION)
  }
}
