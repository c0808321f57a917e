/** Identifiers, timestamps and the id-only records of other services that
    the order service keeps as replicas or embeds in its orders. */
module ForeignTypes {

  /** `bson::Uuid`: an opaque identifier with a total order. */
  type Uuid = nat

  /** `bson::DateTime`: milliseconds since the epoch. */
  type DateTime = int

  /** `std::cmp::Ordering`. */
  datatype Ordering = Less | Equal | Greater

  /** `Uuid::cmp`: the total order on identifiers. */
  function CmpUuid(a: Uuid, b: Uuid): (r: Ordering)
    ensures r == Less <==> a < b
    ensures r == Equal <==> a == b
    ensures r == Greater <==> a > b
  {
    if a < b then Less else if a == b then Equal else Greater
  }

  /** The two shapes of Bson value the service writes: a string, or a
      document mapping field names to identifiers. */
  datatype Bson = BString(str: string) | BDocument(fields: map<string, Uuid>)

  /** The Bson form of an id-only record: a document holding only `_id`. */
  function IdDocument(id: Uuid): (b: Bson)
    ensures b.BDocument? && b.fields.Keys == {"_id"} && b.fields["_id"] == id
  {
    BDocument(map["_id" := id])
  }

  datatype ProductVariantVersion = ProductVariantVersion(id: Uuid, price: nat, taxRateId: Uuid)
  datatype ProductItem = ProductItem(id: Uuid)
  datatype TaxRateVersion = TaxRateVersion(id: Uuid)
  datatype Discount = Discount(id: Uuid)

  /** `PartialOrd for Discount` compares ids; this is the sort key. */
  function DiscountId(d: Discount): nat { d.id }

  /** A `BTreeSet<Discount>` as the sequence it iterates: ascending ids. */
  type DiscountSet = s: seq<Discount> | forall i, j :: 0 <= i < j < |s| ==> s[i].id < s[j].id witness []
  datatype ShoppingCartItem = ShoppingCartItem(id: Uuid)
  datatype UserAddress = UserAddress(id: Uuid)
  datatype Coupon = Coupon(id: Uuid)
  datatype TaxRate = TaxRate(id: Uuid, currentVersion: TaxRateVersion)

  /** The stored value of a product variant's visibility field: a boolean
      when written by the variant's creation, or whatever string the
      visibility update event carried. */
  datatype Visibility = VisibleFlag(flag: bool) | VisibleText(text: string)

  datatype ProductVariant = ProductVariant(id: Uuid, currentVersion: ProductVariantVersion, isPubliclyVisible: Visibility)

  /** A user owning orders, with the ids of the user's addresses. */
  datatype User = User(id: Uuid, userAddressIds: seq<Uuid>)

  /** `User::from(Uuid)`: a user without addresses. */
  function UserFromUuid(id: Uuid): (u: User)
    ensures u.id == id && u.userAddressIds == []
  {
    User(id, [])
  }
}
