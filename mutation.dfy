/** Order creation and placement (src/mutation.rs): the pure helpers that
    join the per-product-variant maps, and the two mutations over the order
    collection. A `HashMap` is a `map` together with the order in which it
    is iterated, given as a parameter wherever the result depends on it. */
module Mutation {
  import opened Wrappers
  import opened ForeignTypes
  import opened InputStructs
  import opened OrderItemModel
  import opened OrderModel
  import opened OrderDTOs
  import opened Amounts
  import opened LegacyInputStructs

  /** The error cases of the mutations and their helpers. */
  datatype MutationError =
    | NotFound(id: Uuid)
    | NotPresent(id: Uuid)
    | NoneOfIdsPresent
    | AddressNotFound(addressId: Uuid, userId: Uuid)
    | MissingKey(id: Uuid)
    | NotAllAvailable
    | MissingDiscounts(id: Uuid)
    | InsertFailed
    | PlacingFailed(id: Uuid)
    | RejectedForTimeout(id: Uuid)
    | RejectingFailed(id: Uuid)
    | SendFailed

  /** A shopping cart item as the cart service reports it: its product
      variant and count. */
  datatype CartEntry = CartEntry(productVariantId: Uuid, count: nat)

  /** Every input names a cart item known to the cart. */
  predicate InCart(inputs: seq<OrderItemInput>, cart: map<Uuid, CartEntry>)
  {
    forall k :: 0 <= k < |inputs| ==> inputs[k].shoppingCartItemId in cart
  }

  /** `k` is the first input whose cart item is unknown. */
  predicate IsFirstMissing(inputs: seq<OrderItemInput>, cart: map<Uuid, CartEntry>, k: int)
  {
    && 0 <= k < |inputs| && inputs[k].shoppingCartItemId !in cart
    && forall j :: 0 <= j < k ==> inputs[j].shoppingCartItemId in cart
  }

  /** `k` is the last input whose cart item belongs to product variant `pv`. */
  predicate IsLastFor(inputs: seq<OrderItemInput>, cart: map<Uuid, CartEntry>, pv: Uuid, k: int)
    requires InCart(inputs, cart)
  {
    && 0 <= k < |inputs| && cart[inputs[k].shoppingCartItemId].productVariantId == pv
    && forall j :: k < j < |inputs| ==> cart[inputs[j].shoppingCartItemId].productVariantId != pv
  }

  /** The shared shape of `build_counts_by_product_variant_ids` and
      `build_order_item_inputs_by_product_variant_ids`: walks the inputs in
      order, stops at the first one whose cart item is unknown, and otherwise
      maps the product variant of each input's cart item to a value taken
      from that input, a later input overwriting an earlier one. */
  function ByVariant<V>(inputs: seq<OrderItemInput>, cart: map<Uuid, CartEntry>,
                        valueOf: (OrderItemInput, CartEntry) -> V): (r: Result<map<Uuid, V>, MutationError>)
    ensures r.Ok? <==> InCart(inputs, cart)
  {
    if inputs == [] then Ok(map[])
    else
      var n := |inputs| - 1;
      var prefix := ByVariant(inputs[..n], cart, valueOf);
      var e := inputs[n];
      if prefix.Err? then prefix
      else if e.shoppingCartItemId !in cart then Err(MissingKey(e.shoppingCartItemId))
      else
        var entry := cart[e.shoppingCartItemId];
        Ok(prefix.value[entry.productVariantId := valueOf(e, entry)])
  }

  /** `build_counts_by_product_variant_ids`: product variant to count. */
  function BuildCounts(inputs: seq<OrderItemInput>, cart: map<Uuid, CartEntry>): (r: Result<map<Uuid, nat>, MutationError>)
    ensures r.Ok? <==> InCart(inputs, cart)
  {
    ByVariant(inputs, cart, (i: OrderItemInput, e: CartEntry) => e.count)
  }

  /** `build_order_item_inputs_by_product_variant_ids`: product variant to
      the input naming it. */
  function BuildOrderItemInputs(inputs: seq<OrderItemInput>, cart: map<Uuid, CartEntry>): (r: Result<map<Uuid, OrderItemInput>, MutationError>)
    ensures r.Ok? <==> InCart(inputs, cart)
  {
    ByVariant(inputs, cart, (i: OrderItemInput, e: CartEntry) => i)
  }

  /** The error names the first input whose cart item is unknown. */
  lemma {:induction false} ByVariantFirstMissing<V>(inputs: seq<OrderItemInput>, cart: map<Uuid, CartEntry>,
                                                   valueOf: (OrderItemInput, CartEntry) -> V)
    ensures var r := ByVariant(inputs, cart, valueOf);
      r.Err? ==> exists k :: IsFirstMissing(inputs, cart, k) && r.error == MissingKey(inputs[k].shoppingCartItemId)
  {
    var r := ByVariant(inputs, cart, valueOf);
    if inputs != [] && r.Err? {
      var n := |inputs| - 1;
      var prefix := ByVariant(inputs[..n], cart, valueOf);
      if prefix.Err? {
        ByVariantFirstMissing(inputs[..n], cart, valueOf);
        var k :| IsFirstMissing(inputs[..n], cart, k) && prefix.error == MissingKey(inputs[..n][k].shoppingCartItemId);
        assert IsFirstMissing(inputs, cart, k);
      } else {
        assert IsFirstMissing(inputs, cart, n);
      }
    }
  }

  /** The keys are exactly the product variants of the inputs' cart items. */
  lemma {:induction false} ByVariantKeys<V>(inputs: seq<OrderItemInput>, cart: map<Uuid, CartEntry>,
                                           valueOf: (OrderItemInput, CartEntry) -> V)
    requires InCart(inputs, cart)
    ensures forall pv :: pv in ByVariant(inputs, cart, valueOf).value <==>
      exists k :: 0 <= k < |inputs| && cart[inputs[k].shoppingCartItemId].productVariantId == pv
  {
    if inputs != [] {
      var n := |inputs| - 1;
      assert InCart(inputs[..n], cart);
      ByVariantKeys(inputs[..n], cart, valueOf);
      forall pv | exists k :: 0 <= k < |inputs| && cart[inputs[k].shoppingCartItemId].productVariantId == pv
        ensures pv in ByVariant(inputs, cart, valueOf).value
      {
        var k :| 0 <= k < |inputs| && cart[inputs[k].shoppingCartItemId].productVariantId == pv;
        if k < n {
          assert inputs[..n][k] == inputs[k];
        }
      }
      forall pv | pv in ByVariant(inputs, cart, valueOf).value
        ensures exists k :: 0 <= k < |inputs| && cart[inputs[k].shoppingCartItemId].productVariantId == pv
      {
        if cart[inputs[n].shoppingCartItemId].productVariantId != pv {
          assert pv in ByVariant(inputs[..n], cart, valueOf).value;
          var k :| 0 <= k < |inputs[..n]| && cart[inputs[..n][k].shoppingCartItemId].productVariantId == pv;
          assert inputs[..n][k] == inputs[k];
        }
      }
    }
  }

  /** Each product variant carries the value of the last input naming it. */
  lemma {:induction false} ByVariantLastWins<V>(inputs: seq<OrderItemInput>, cart: map<Uuid, CartEntry>,
                                               valueOf: (OrderItemInput, CartEntry) -> V, pv: Uuid)
    requires InCart(inputs, cart)
    requires pv in ByVariant(inputs, cart, valueOf).value
    ensures exists k :: (IsLastFor(inputs, cart, pv, k)
      && ByVariant(inputs, cart, valueOf).value[pv] == valueOf(inputs[k], cart[inputs[k].shoppingCartItemId]))
  {
    var n := |inputs| - 1;
    assert InCart(inputs[..n], cart);
    var entry := cart[inputs[n].shoppingCartItemId];
    if entry.productVariantId == pv {
      assert IsLastFor(inputs, cart, pv, n);
    } else {
      ByVariantLastWins(inputs[..n], cart, valueOf, pv);
      var k :| IsLastFor(inputs[..n], cart, pv, k)
        && ByVariant(inputs[..n], cart, valueOf).value[pv] == valueOf(inputs[..n][k], cart[inputs[..n][k].shoppingCartItemId]);
      assert IsLastFor(inputs, cart, pv, k);
    }
  }

  /** The two maps built from the same inputs agree: both fail or neither,
      they have the same product variants, and each product variant's count
      is the count of the cart item of the input it is mapped to. */
  lemma BuildersAgree(inputs: seq<OrderItemInput>, cart: map<Uuid, CartEntry>)
    ensures BuildCounts(inputs, cart).Ok? <==> BuildOrderItemInputs(inputs, cart).Ok?
    ensures BuildCounts(inputs, cart).Ok? ==>
      var counts := BuildCounts(inputs, cart).value;
      var byVariant := BuildOrderItemInputs(inputs, cart).value;
      && counts.Keys == byVariant.Keys
      && forall pv :: pv in byVariant ==>
           byVariant[pv].shoppingCartItemId in cart
           && cart[byVariant[pv].shoppingCartItemId] == CartEntry(pv, counts[pv])
  {
    if InCart(inputs, cart) {
      var fc := (i: OrderItemInput, e: CartEntry) => e.count;
      var fi := (i: OrderItemInput, e: CartEntry) => i;
      ByVariantKeys(inputs, cart, fc);
      ByVariantKeys(inputs, cart, fi);
      var counts := BuildCounts(inputs, cart).value;
      var byVariant := BuildOrderItemInputs(inputs, cart).value;
      forall pv | pv in byVariant
        ensures byVariant[pv].shoppingCartItemId in cart && cart[byVariant[pv].shoppingCartItemId] == CartEntry(pv, counts[pv])
      {
        ByVariantLastWins(inputs, cart, fc, pv);
        ByVariantLastWins(inputs, cart, fi, pv);
        var k1 :| IsLastFor(inputs, cart, pv, k1) && counts[pv] == cart[inputs[k1].shoppingCartItemId].count;
        var k2 :| IsLastFor(inputs, cart, pv, k2) && byVariant[pv] == inputs[k2];
        assert k1 == k2;
      }
    }
  }

  /** `order` lists the keys of a `HashMap` in its iteration order: each
      key once and nothing else. */
  ghost predicate Enumerates(order: seq<Uuid>, keys: set<Uuid>)
  {
    && (forall i, j :: 0 <= i < j < |order| ==> order[i] != order[j])
    && (forall id :: id in order <==> id in keys)
  }

  /** Every expected product variant is in stock with at least the
      expected count. */
  predicate AllAvailable(stock: map<Uuid, nat>, expected: map<Uuid, nat>)
  {
    forall id :: id in expected ==> id in stock && stock[id] >= expected[id]
  }

  /** The availability flags of the listed product variants, or the error
      for the first one missing from the stock map. */
  function Availabilities(stock: map<Uuid, nat>, expected: map<Uuid, nat>, order: seq<Uuid>): (r: Result<seq<bool>, MutationError>)
    requires forall k :: 0 <= k < |order| ==> order[k] in expected
    ensures r.Ok? <==> forall k :: 0 <= k < |order| ==> order[k] in stock
    ensures r.Ok? ==> |r.value| == |order|
    ensures r.Ok? ==> forall k :: 0 <= k < |order| ==> (r.value[k] <==> stock[order[k]] >= expected[order[k]])
    ensures r.Err? ==> r.error.MissingKey? && r.error.id in order && r.error.id !in stock
  {
    if order == [] then Ok([])
    else if order[0] !in stock then Err(MissingKey(order[0]))
    else
      var rest := Availabilities(stock, expected, order[1..]);
      if rest.Err? then rest
      else Ok([stock[order[0]] >= expected[order[0]]] + rest.value)
  }

  /** `calculate_availability_of_product_variant_ids`: succeeds exactly when
      every expected product variant is in stock in the expected count; a
      product variant absent from the stock map is reported by id, a short
      stock by the generic unavailability error. */
  function CalculateAvailability(stock: map<Uuid, nat>, expected: map<Uuid, nat>, order: seq<Uuid>): (r: Result<Unit, MutationError>)
    requires Enumerates(order, expected.Keys)
    ensures r.Ok? <==> AllAvailable(stock, expected)
    ensures (exists id :: id in expected && id !in stock) <==> r.Err? && r.error.MissingKey?
    ensures r.Err? && r.error.MissingKey? ==> r.error.id in expected && r.error.id !in stock
    ensures r.Err? ==> r.error.MissingKey? || r.error == NotAllAvailable
  {
    var flags := Availabilities(stock, expected, order);
    if flags.Err? then
      Err(flags.error)
    else if forall k :: 0 <= k < |flags.value| ==> flags.value[k] then
      Ok(Unit)
    else
      Err(NotAllAvailable)
  }

  /** Stock reported for a product variant nobody asked for changes nothing. */
  lemma {:induction false} AvailabilityIgnoresUnrequested(stock: map<Uuid, nat>, expected: map<Uuid, nat>, order: seq<Uuid>,
                                                        extra: Uuid, count: nat)
    requires Enumerates(order, expected.Keys)
    requires extra !in expected
    ensures CalculateAvailability(stock[extra := count], expected, order) == CalculateAvailability(stock, expected, order)
  {
    AvailabilitiesIgnoreUnrequested(stock, expected, order, extra, count);
  }

  lemma {:induction false} AvailabilitiesIgnoreUnrequested(stock: map<Uuid, nat>, expected: map<Uuid, nat>, order: seq<Uuid>,
                                                         extra: Uuid, count: nat)
    requires forall k :: 0 <= k < |order| ==> order[k] in expected
    requires extra !in expected
    ensures Availabilities(stock[extra := count], expected, order) == Availabilities(stock, expected, order)
  {
    if order != [] {
      AvailabilitiesIgnoreUnrequested(stock, expected, order[1..], extra, count);
    }
  }

  /** The fold of `validate_objects` over the requested ids: a found id
      keeps the verdict so far, a missing id replaces it by its own error. */
  function FoldPresence(verdict: Result<Unit, MutationError>, present: set<Uuid>, ids: seq<Uuid>): Result<Unit, MutationError>
    decreases |ids|
  {
    if ids == [] then verdict
    else FoldPresence(if ids[0] in present then verdict else Err(NotPresent(ids[0])), present, ids[1..])
  }

  /** `k` is the last requested id that is missing. */
  predicate IsLastMissing(present: set<Uuid>, ids: seq<Uuid>, k: int)
  {
    && 0 <= k < |ids| && ids[k] !in present
    && forall j :: k < j < |ids| ==> ids[j] in present
  }

  lemma {:induction false} FoldPresenceOutcome(verdict: Result<Unit, MutationError>, present: set<Uuid>, ids: seq<Uuid>)
    ensures (forall k :: 0 <= k < |ids| ==> ids[k] in present) ==> FoldPresence(verdict, present, ids) == verdict
    ensures (exists k :: 0 <= k < |ids| && ids[k] !in present) ==>
      exists k :: IsLastMissing(present, ids, k) && FoldPresence(verdict, present, ids) == Err(NotPresent(ids[k]))
    decreases |ids|
  {
    if ids != [] {
      var next := if ids[0] in present then verdict else Err(NotPresent(ids[0]));
      FoldPresenceOutcome(next, present, ids[1..]);
      if exists k :: 0 <= k < |ids| && ids[k] !in present {
        if exists k :: 0 <= k < |ids[1..]| && ids[1..][k] !in present {
          var k :| IsLastMissing(present, ids[1..], k) && FoldPresence(next, present, ids[1..]) == Err(NotPresent(ids[1..][k]));
          assert IsLastMissing(present, ids, k + 1);
        } else {
          assert IsLastMissing(present, ids, 0);
        }
      }
    }
  }

  /** `validate_objects`: with a working store, succeeds exactly when every
      requested id is in the collection (so an empty request succeeds), and
      otherwise reports the last missing id; a failing `find` is an error. */
  function ValidateObjects(present: set<Uuid>, ids: seq<Uuid>, findOk: bool): (r: Result<Unit, MutationError>)
    ensures !findOk ==> r == Err(NoneOfIdsPresent)
    ensures findOk ==> (r.Ok? <==> forall k :: 0 <= k < |ids| ==> ids[k] in present)
    ensures findOk && r.Err? ==> exists k :: IsLastMissing(present, ids, k) && r.error == NotPresent(ids[k])
  {
    FoldPresenceOutcome(Ok(Unit), present, ids);
    if findOk then FoldPresence(Ok(Unit), present, ids) else Err(NoneOfIdsPresent)
  }

  /** `validate_object`: the id is in the collection. */
  function ValidateObject(present: set<Uuid>, id: Uuid, storeUp: bool): (r: Result<Unit, MutationError>)
    ensures r.Ok? <==> storeUp && id in present
    ensures r.Err? ==> r.error == NotFound(id)
  {
    if storeUp && id in present then Ok(Unit) else Err(NotFound(id))
  }

  /** One entry of the `findApplicableDiscounts` response. */
  datatype ApplicableDiscounts = ApplicableDiscounts(productVariantId: Uuid, discounts: seq<Discount>)

  /** `k` is the last response entry for product variant `id`. */
  predicate IsLastEntry(response: seq<ApplicableDiscounts>, id: Uuid, k: int)
  {
    && 0 <= k < |response| && response[k].productVariantId == id
    && forall j :: k < j < |response| ==> response[j].productVariantId != id
  }

  /** The response folded into a map by product variant, a later entry
      replacing an earlier one. */
  function LastByVariant(response: seq<ApplicableDiscounts>): (m: map<Uuid, ApplicableDiscounts>)
    ensures forall id :: id in m <==> exists k :: 0 <= k < |response| && response[k].productVariantId == id
  {
    if response == [] then map[]
    else
      var n := |response| - 1;
      var prefix := LastByVariant(response[..n]);
      assert forall k :: 0 <= k < n ==> response[..n][k] == response[k];
      prefix[response[n].productVariantId := response[n]]
  }

  /** Each product variant is mapped to its last response entry. */
  lemma LastByVariantLastWins(response: seq<ApplicableDiscounts>, id: Uuid)
    requires id in LastByVariant(response)
    ensures exists k :: IsLastEntry(response, id, k) && LastByVariant(response)[id] == response[k]
  {
    var k := LastEntryOf(response, id);
  }

  /** The index of the last response entry for `id`, which the map holds. */
  lemma {:induction false} LastEntryOf(response: seq<ApplicableDiscounts>, id: Uuid) returns (k: int)
    requires id in LastByVariant(response)
    ensures IsLastEntry(response, id, k) && LastByVariant(response)[id] == response[k]
  {
    var n := |response| - 1;
    if response[n].productVariantId == id {
      k := n;
    } else {
      var prefix := response[..n];
      k := LastEntryOf(prefix, id);
      assert prefix[k] == response[k];
      assert forall j :: k < j < n ==> prefix[j] == response[j];
    }
  }

  /** Requested id `ids[k]` cannot be served: the response lacks it, or an
      earlier request already took it. */
  predicate Unserved(byVariant: map<Uuid, ApplicableDiscounts>, ids: seq<Uuid>, k: int)
    requires 0 <= k < |ids|
  {
    ids[k] !in byVariant || ids[k] in ids[..k]
  }

  /** `remap_discounts_to_product_variants`: inserts the response entries
      into a map by product variant, then removes the entry of each requested
      id in turn. Succeeds exactly when every requested id has an entry and
      none is requested twice; the result maps exactly the requested ids to
      their last response entry. */
  method RemapDiscounts(response: seq<ApplicableDiscounts>, ids: seq<Uuid>)
    returns (r: Result<map<Uuid, ApplicableDiscounts>, MutationError>)
    ensures r.Ok? <==> (forall k :: 0 <= k < |ids| ==> ids[k] in LastByVariant(response))
                       && (forall i, j :: 0 <= i < j < |ids| ==> ids[i] != ids[j])
    ensures r.Ok? ==> forall id :: id in r.value <==> id in ids
    ensures r.Ok? ==> forall id :: id in r.value ==> r.value[id] == LastByVariant(response)[id]
    ensures r.Err? ==> exists k :: (0 <= k < |ids| && Unserved(LastByVariant(response), ids, k)
      && (forall j :: 0 <= j < k ==> !Unserved(LastByVariant(response), ids, j))
      && r.error == MissingDiscounts(ids[k]))
  {
    var byVariant := IndexByVariant(response);
    r := TakeRequested(byVariant, ids);
    if r.Ok? {
      NoUnservedMeansDistinct(byVariant, ids);
    } else {
      var k :| 0 <= k < |ids| && Unserved(byVariant, ids, k)
        && (forall j :: 0 <= j < k ==> !Unserved(byVariant, ids, j)) && r.error == MissingDiscounts(ids[k]);
      assert ids[k] !in byVariant || ids[k] in ids[..k];
    }
  }

  /** The second half of `remap_discounts_to_product_variants`: removes the
      entry of each requested id in turn from the index. */
  method TakeRequested(index: map<Uuid, ApplicableDiscounts>, ids: seq<Uuid>)
    returns (r: Result<map<Uuid, ApplicableDiscounts>, MutationError>)
    ensures r.Ok? <==> forall k :: 0 <= k < |ids| ==> !Unserved(index, ids, k)
    ensures r.Ok? ==> forall id :: id in r.value <==> id in ids
    ensures r.Ok? ==> forall id :: id in r.value ==> id in index && r.value[id] == index[id]
    ensures r.Err? ==> exists k :: (0 <= k < |ids| && Unserved(index, ids, k)
      && (forall j :: 0 <= j < k ==> !Unserved(index, ids, j))
      && r.error == MissingDiscounts(ids[k]))
  {
    var byVariant := index;
    ghost var taken: set<Uuid> := {};
    var remapped: map<Uuid, ApplicableDiscounts> := map[];
    for k := 0 to |ids|
      invariant forall j :: 0 <= j < k ==> !Unserved(index, ids, j)
      invariant forall id :: id in taken <==> id in ids[..k]
      invariant byVariant == index - taken
      invariant remapped.Keys == taken
      invariant forall id :: id in remapped ==> id in index && remapped[id] == index[id]
    {
      if ids[k] !in byVariant {
        assert Unserved(index, ids, k);
        return Err(MissingDiscounts(ids[k]));
      }
      assert ids[..k + 1] == ids[..k] + [ids[k]];
      remapped := remapped[ids[k] := byVariant[ids[k]]];
      byVariant := byVariant - {ids[k]};
      taken := taken + {ids[k]};
    }
    assert ids[..|ids|] == ids;
    return Ok(remapped);
  }

  /** The first half of `remap_discounts_to_product_variants`: the fold
      that inserts every response entry. */
  method IndexByVariant(response: seq<ApplicableDiscounts>) returns (byVariant: map<Uuid, ApplicableDiscounts>)
    ensures byVariant == LastByVariant(response)
  {
    byVariant := map[];
    for i := 0 to |response|
      invariant byVariant == LastByVariant(response[..i])
    {
      assert response[..i + 1][..i] == response[..i];
      byVariant := byVariant[response[i].productVariantId := response[i]];
    }
    assert response[..|response|] == response;
  }

  lemma NoUnservedMeansDistinct(byVariant: map<Uuid, ApplicableDiscounts>, ids: seq<Uuid>)
    requires forall k :: 0 <= k < |ids| ==> !Unserved(byVariant, ids, k)
    ensures forall i, j :: 0 <= i < j < |ids| ==> ids[i] != ids[j]
  {
    forall i, j | 0 <= i < j < |ids|
      ensures ids[i] != ids[j]
    {
      assert !Unserved(byVariant, ids, j);
      assert ids[i] in ids[..j];
    }
  }

  /** The per-product-variant maps from which order items are assembled,
      as `query_or_obtain_order_item_attributes` returns them. */
  datatype ItemAttributes = ItemAttributes(
    inputs: map<Uuid, OrderItemInput>,
    variants: map<Uuid, ProductVariant>,
    versions: map<Uuid, ProductVariantVersion>,
    taxRateVersions: map<Uuid, TaxRateVersion>,
    counts: map<Uuid, nat>,
    discounts: map<Uuid, DiscountSet>)

  /** Every map besides the product variants has an entry for `id`. */
  predicate Complete(a: ItemAttributes, id: Uuid)
  {
    id in a.inputs && id in a.versions && id in a.taxRateVersions && id in a.counts && id in a.discounts
  }

  /** The lookups of one product variant in the order the source makes
      them: the first absent entry is the error. */
  function Lookup(a: ItemAttributes, id: Uuid): (r: Result<Unit, MutationError>)
    ensures r.Ok? <==> Complete(a, id)
    ensures r.Err? ==> r.error == MissingKey(id)
  {
    if id !in a.inputs || id !in a.versions || id !in a.taxRateVersions || id !in a.counts || id !in a.discounts
    then Err(MissingKey(id))
    else Ok(Unit)
  }

  /** The order item built for product variant `id` from its attributes. */
  function ItemFor(a: ItemAttributes, id: Uuid, newId: Uuid, now: DateTime,
                   amountOf: (ProductVariantVersion, DiscountSet) -> nat): (item: OrderItem)
    requires id in a.variants && Complete(a, id)
    ensures item.id == newId && item.createdAt == now
    ensures item.productVariant == a.variants[id] && item.count == a.counts[id]
    ensures item.productVariantVersion == a.versions[id] && item.taxRateVersion == a.taxRateVersions[id]
    ensures item.shoppingCartItem.id == a.inputs[id].shoppingCartItemId
    ensures item.shipmentMethod.id == a.inputs[id].shipmentMethodId
    ensures item.internalDiscounts == a.discounts[id]
    ensures item.compensatableAmount == amountOf(a.versions[id], a.discounts[id])
  {
    New(a.inputs[id], a.variants[id], a.versions[id], a.taxRateVersions[id], a.counts[id],
      a.discounts[id], now, newId, amountOf(a.versions[id], a.discounts[id]))
  }

  /** `zip_to_internal_order_items`: one order item per product variant, in
      the map's iteration order `order`, each with a fresh id from `newIds`
      and the compensatable amount `amountOf` gives for its version and
      discounts. A product variant missing from another map is an error. */
  function Zip(a: ItemAttributes, order: seq<Uuid>, newIds: seq<Uuid>, now: DateTime,
               amountOf: (ProductVariantVersion, DiscountSet) -> nat): (r: Result<seq<OrderItem>, MutationError>)
    requires forall k :: 0 <= k < |order| ==> order[k] in a.variants
    requires |newIds| == |order|
    ensures r.Ok? <==> forall k :: 0 <= k < |order| ==> Complete(a, order[k])
    ensures r.Ok? ==> |r.value| == |order|
    ensures r.Ok? ==> forall k :: 0 <= k < |order| ==>
      Complete(a, order[k]) && r.value[k] == ItemFor(a, order[k], newIds[k], now, amountOf)
  {
    if order == [] then Ok([])
    else
      var id := order[0];
      match Lookup(a, id)
      case Err(e) => Err(e)
      case Ok(_) =>
        var rest := Zip(a, order[1..], newIds[1..], now, amountOf);
        if rest.Err? then rest
        else Ok([ItemFor(a, id, newIds[0], now, amountOf)] + rest.value)
  }

  /** The error of a failed zip names the first product variant, in
      iteration order, that another map lacks. */
  lemma {:induction false} ZipFirstIncomplete(a: ItemAttributes, order: seq<Uuid>, newIds: seq<Uuid>, now: DateTime,
                                              amountOf: (ProductVariantVersion, DiscountSet) -> nat)
    requires forall k :: 0 <= k < |order| ==> order[k] in a.variants
    requires |newIds| == |order|
    requires Zip(a, order, newIds, now, amountOf).Err?
    ensures exists k :: (0 <= k < |order| && !Complete(a, order[k])
      && (forall j :: 0 <= j < k ==> Complete(a, order[j]))
      && Zip(a, order, newIds, now, amountOf).error == MissingKey(order[k]))
  {
    if Complete(a, order[0]) {
      ZipFirstIncomplete(a, order[1..], newIds[1..], now, amountOf);
      var k :| 0 <= k < |order[1..]| && !Complete(a, order[1..][k])
        && (forall j :: 0 <= j < k ==> Complete(a, order[1..][j]))
        && Zip(a, order[1..], newIds[1..], now, amountOf).error == MissingKey(order[1..][k]);
      assert forall j :: 1 <= j < k + 1 ==> order[j] == order[1..][j - 1];
      assert !Complete(a, order[k + 1]);
    } else {
      assert !Complete(a, order[0]);
    }
  }

  /** A zip over the whole product-variant map yields exactly one item per
      entry of the map. */
  lemma ZipOneItemPerVariant(a: ItemAttributes, order: seq<Uuid>, newIds: seq<Uuid>, now: DateTime,
                             amountOf: (ProductVariantVersion, DiscountSet) -> nat)
    requires Enumerates(order, a.variants.Keys)
    requires |newIds| == |order|
    requires Zip(a, order, newIds, now, amountOf).Ok?
    ensures |Zip(a, order, newIds, now, amountOf).value| == |a.variants|
    ensures forall id :: id in a.variants ==>
      exists k :: 0 <= k < |order| && Zip(a, order, newIds, now, amountOf).value[k].productVariant == a.variants[id]
  {
    EnumerationSize(order, a.variants.Keys);
    var items := Zip(a, order, newIds, now, amountOf).value;
    forall id | id in a.variants
      ensures exists k :: 0 <= k < |order| && items[k].productVariant == a.variants[id]
    {
      var k :| 0 <= k < |order| && order[k] == id;
      assert items[k].productVariant == a.variants[id];
    }
  }

  /** A duplicate-free list of the keys has as many elements as there are keys. */
  lemma {:induction false} EnumerationSize(order: seq<Uuid>, keys: set<Uuid>)
    requires Enumerates(order, keys)
    ensures |order| == |keys|
  {
    if order != [] {
      var rest := keys - {order[0]};
      assert Enumerates(order[1..], rest) by {
        forall id
          ensures id in order[1..] <==> id in rest
        {
          if id in order[1..] {
            var j :| 0 <= j < |order[1..]| && order[1..][j] == id;
            assert order[j + 1] == id && order[0] != order[j + 1];
          }
        }
      }
      EnumerationSize(order[1..], rest);
    }
  }

  const U32_MODULUS: nat := 0x1_0000_0000

  /** The prices of the listed product variant versions, added up. */
  function SumPrices(versions: map<Uuid, ProductVariantVersion>, order: seq<Uuid>): nat
    requires forall k :: 0 <= k < |order| ==> order[k] in versions
  {
    if order == [] then 0 else versions[order[0]].price + SumPrices(versions, order[1..])
  }

  /** `calculate_order_amount`: the prices of all product variant versions
      added up in `u32` arithmetic, which wraps modulo 2^32 when the sum does
      not fit (the release-build behaviour), then widened to `i64`. */
  function CalculateOrderAmount(versions: map<Uuid, ProductVariantVersion>, order: seq<Uuid>): (r: int)
    requires Enumerates(order, versions.Keys)
    ensures 0 <= r < U32_MODULUS
    ensures SumPrices(versions, order) < U32_MODULUS ==> r == SumPrices(versions, order)
    ensures (r - SumPrices(versions, order)) % U32_MODULUS == 0
  {
    SumPrices(versions, order) % U32_MODULUS
  }

  /** Taking out one listed product variant takes out its price. */
  lemma {:induction false} SumPricesRemove(versions: map<Uuid, ProductVariantVersion>, order: seq<Uuid>, j: nat)
    requires forall k :: 0 <= k < |order| ==> order[k] in versions
    requires j < |order|
    ensures SumPrices(versions, order) == versions[order[j]].price + SumPrices(versions, order[..j] + order[j + 1..])
  {
    if j > 0 {
      SumPricesRemove(versions, order[1..], j - 1);
      assert order[1..][..j - 1] + order[1..][j..] == (order[..j] + order[j + 1..])[1..];
    } else {
      assert order[..0] + order[1..] == order[1..];
    }
  }

  /** The order amount does not depend on the iteration order of the map. */
  lemma {:induction false} SumPricesAnyOrder(versions: map<Uuid, ProductVariantVersion>, a: seq<Uuid>, b: seq<Uuid>)
    requires forall k :: 0 <= k < |a| ==> a[k] in versions
    requires multiset(a) == multiset(b)
    ensures forall k :: 0 <= k < |b| ==> b[k] in versions
    ensures SumPrices(versions, a) == SumPrices(versions, b)
    decreases |a|
  {
    forall k | 0 <= k < |b|
      ensures b[k] in versions
    {
      assert b[k] in multiset(b);
      assert b[k] in multiset(a);
    }
    if a != [] {
      assert a[0] in multiset(b) by {
        assert a == [a[0]] + a[1..];
      }
      var j :| 0 <= j < |b| && b[j] == a[0];
      var bRest := b[..j] + b[j + 1..];
      RemoveMatching(a, b, j);
      SumPricesRemove(versions, b, j);
      SumPricesAnyOrder(versions, a[1..], bRest);
    }
  }

  /** Taking the first element out of one of two permutations and the
      same value out of the other leaves permutations. */
  lemma RemoveMatching(a: seq<Uuid>, b: seq<Uuid>, j: nat)
    requires multiset(a) == multiset(b)
    requires a != [] && j < |b| && b[j] == a[0]
    ensures multiset(a[1..]) == multiset(b[..j] + b[j + 1..])
  {
    var bRest := b[..j] + b[j + 1..];
    assert b == b[..j] + [b[j]] + b[j + 1..];
    assert a == [a[0]] + a[1..];
    forall x
      ensures multiset(a[1..])[x] == multiset(bRest)[x]
    {
      assert multiset(a)[x] == multiset([a[0]])[x] + multiset(a[1..])[x];
      assert multiset(b)[x] == multiset(b[..j])[x] + multiset([b[j]])[x] + multiset(b[j + 1..])[x];
    }
  }

  lemma OrderAmountAnyOrder(versions: map<Uuid, ProductVariantVersion>, a: seq<Uuid>, b: seq<Uuid>)
    requires Enumerates(a, versions.Keys) && Enumerates(b, versions.Keys)
    ensures CalculateOrderAmount(versions, a) == CalculateOrderAmount(versions, b)
  {
    EnumerationsPermute(a, b, versions.Keys);
    SumPricesAnyOrder(versions, a, b);
  }

  /** Two iteration orders of the same keys are permutations of each other. */
  lemma EnumerationsPermute(a: seq<Uuid>, b: seq<Uuid>, keys: set<Uuid>)
    requires Enumerates(a, keys) && Enumerates(b, keys)
    ensures multiset(a) == multiset(b)
  {
    forall x
      ensures multiset(a)[x] == multiset(b)[x]
    {
      DistinctCount(a, x);
      DistinctCount(b, x);
    }
  }

  lemma {:induction false} DistinctCount(s: seq<Uuid>, x: Uuid)
    requires forall i, j :: 0 <= i < j < |s| ==> s[i] != s[j]
    ensures multiset(s)[x] == if x in s then 1 else 0
  {
    if s != [] {
      assert s == [s[0]] + s[1..];
      DistinctCount(s[1..], x);
    }
  }

  /** `PENDING_TIMEOUT`: one hour, in milliseconds. */
  const PENDING_TIMEOUT_MS: int := 3_600_000

  /** An order may still be placed while its creation plus the timeout has
      not passed; the boundary itself still counts. */
  predicate WithinPendingTimeout(createdAt: DateTime, now: DateTime)
    ensures WithinPendingTimeout(createdAt, now) <==> now - createdAt <= PENDING_TIMEOUT_MS
  {
    createdAt + PENDING_TIMEOUT_MS >= now
  }

  /** Placing earlier than an instant inside the window is inside it too,
      and the window ends exactly one hour after creation. */
  lemma PendingTimeoutWindow(createdAt: DateTime, now: DateTime, earlier: DateTime)
    requires earlier <= now && WithinPendingTimeout(createdAt, now)
    ensures WithinPendingTimeout(createdAt, earlier)
    ensures WithinPendingTimeout(createdAt, createdAt + 3_600_000)
    ensures !WithinPendingTimeout(createdAt, createdAt + 3_600_001)
  {
  }

  /** `validate_user_address` as written: it looks up the user and never
      looks at the address. */
  function ValidateUserAddressAsWritten(users: map<Uuid, User>, addressId: Uuid, userId: Uuid): (r: Result<Unit, MutationError>)
    ensures r.Ok? <==> userId in users
    ensures r.Err? ==> r.error == AddressNotFound(addressId, userId)
  {
    if userId in users then Ok(Unit) else Err(AddressNotFound(addressId, userId))
  }

  /** An address the user never registered passes the check as written. */
  lemma ForeignAddressAccepted()
    ensures var users := map[1 := User(1, [])];
      && ValidateUserAddressAsWritten(users, 2, 1).Ok?
      && 2 !in users[1].userAddressIds
  {
  }

  /** `validate_user_address` as its documentation describes it: the
      address must be registered under the user. */
  function ValidateUserAddress(users: map<Uuid, User>, addressId: Uuid, userId: Uuid): (r: Result<Unit, MutationError>)
    ensures r.Ok? <==> userId in users && addressId in users[userId].userAddressIds
    ensures r.Err? ==> r.error == AddressNotFound(addressId, userId)
  {
    if userId in users && addressId in users[userId].userAddressIds then Ok(Unit)
    else Err(AddressNotFound(addressId, userId))
  }

  /** The shipment method ids of the inputs, in input order. */
  function ShipmentMethodIds(inputs: seq<OrderItemInput>): (ids: seq<Uuid>)
    ensures |ids| == |inputs| && forall k :: 0 <= k < |inputs| ==> ids[k] == inputs[k].shipmentMethodId
  {
    seq(|inputs|, k requires 0 <= k < |inputs| => inputs[k].shipmentMethodId)
  }

  /** `couponIds` is the flattened list of the inputs' coupon ids. */
  ghost predicate FlattensCoupons(couponIds: seq<Uuid>, inputs: seq<OrderItemInput>)
  {
    forall c :: c in couponIds <==> exists k :: 0 <= k < |inputs| && c in inputs[k].couponIds
  }

  /** What `validate_order_input` checks against the replicas, with the
      corrected address check: each address must belong to the user, where
      the source's `validate_user_address` only looks the user up. */
  ghost predicate ValidOrderInput(users: map<Uuid, User>, shipmentMethods: set<Uuid>, coupons: set<Uuid>,
                                  input: LegacyCreateOrderInput)
  {
    && input.userId in users
    && (forall k :: 0 <= k < |input.orderItemInputs| ==> input.orderItemInputs[k].shipmentMethodId in shipmentMethods)
    && (forall k, c :: 0 <= k < |input.orderItemInputs| && c in input.orderItemInputs[k].couponIds ==> c in coupons)
    && input.shipmentAddressId in users[input.userId].userAddressIds
    && input.invoiceAddressId in users[input.userId].userAddressIds
  }

  /** `validate_order_input`: the user, then the shipment methods, then the
      coupons (in the flattened order `couponIds`), then both addresses; the
      first failing check is the error. The addresses go through the
      corrected `ValidateUserAddress`, not `ValidateUserAddressAsWritten`. */
  function ValidateOrderInput(users: map<Uuid, User>, shipmentMethods: set<Uuid>, coupons: set<Uuid>,
                              input: LegacyCreateOrderInput, couponIds: seq<Uuid>): (r: Result<Unit, MutationError>)
    requires FlattensCoupons(couponIds, input.orderItemInputs)
    ensures r.Ok? <==> ValidOrderInput(users, shipmentMethods, coupons, input)
    ensures input.userId !in users ==> r == Err(NotFound(input.userId))
  {
    var inputs := input.orderItemInputs;
    var user := ValidateObject(users.Keys, input.userId, true);
    if user.Err? then user
    else
      var methods := ValidateObjects(shipmentMethods, ShipmentMethodIds(inputs), true);
      if methods.Err? then methods
      else
        var couponCheck := ValidateObjects(coupons, couponIds, true);
        if couponCheck.Err? then
          assert !ValidOrderInput(users, shipmentMethods, coupons, input) by {
            var k :| 0 <= k < |couponIds| && couponIds[k] !in coupons;
            assert couponIds[k] in couponIds;
          }
          couponCheck
        else
          assert forall k, c :: 0 <= k < |inputs| && c in inputs[k].couponIds ==> c in coupons by {
            forall k, c | 0 <= k < |inputs| && c in inputs[k].couponIds
              ensures c in coupons
            {
              assert c in couponIds;
              var j :| 0 <= j < |couponIds| && couponIds[j] == c;
            }
          }
          var shipping := ValidateUserAddress(users, input.shipmentAddressId, input.userId);
          if shipping.Err? then shipping
          else ValidateUserAddress(users, input.invoiceAddressId, input.userId)
  }

  /** The order `create_order` assembles: `Pending`, never placed nor
      rejected, owned by the input's user, with the compensatable amounts
      of its items summed up. The source's `Order` literal has no VAT field;
      the order takes the input's VAT number. */
  function NewOrder(input: LegacyCreateOrderInput, items: seq<OrderItem>, newId: Uuid, now: DateTime): (o: Order)
    ensures o.id == newId && o.createdAt == now
    ensures o.orderStatus == Pending && o.placedAt == None && o.rejectionReason == None
    ensures o.user == UserFromUuid(input.userId)
    ensures o.internalOrderItems == items
    ensures o.compensatableOrderAmount == Total(items, ItemAmount)
    ensures items == [] ==> o.compensatableOrderAmount == 0
    ensures o.shipmentAddress.id == input.shipmentAddressId && o.invoiceAddress.id == input.invoiceAddressId
    ensures o.paymentInformationId == input.paymentInformationId && o.vatNumber == input.vatNumber
  {
    Order(newId, UserFromUuid(input.userId), now, Pending, None, None, items,
      UserAddress(input.shipmentAddressId), UserAddress(input.invoiceAddressId),
      Total(items, ItemAmount), input.paymentInformationId, input.vatNumber)
  }

  /** A compensation naming every item of a new order refunds exactly the
      amount the order was created with. */
  lemma {:induction false} FullCompensationRefundsNewOrder(input: LegacyCreateOrderInput, items: seq<OrderItem>,
                                                         newId: Uuid, now: DateTime, ids: seq<Uuid>)
    requires forall k :: 0 <= k < |items| ==> items[k].id in ids
    ensures SelectedTotal(items, ItemId, ItemAmount, ids) == NewOrder(input, items, newId, now).compensatableOrderAmount
  {
    AllSelectedIsTotal(items, ItemId, ItemAmount, ids);
  }

  /** The `$set` of `set_status_placed_in_mongodb`. */
  function WithStatusPlaced(o: Order, now: DateTime): (p: Order)
    ensures p.orderStatus == Placed && p.placedAt == Some(now)
    ensures p.(orderStatus := o.orderStatus, placedAt := o.placedAt) == o
  {
    o.(orderStatus := Placed, placedAt := Some(now))
  }

  /** The `$set` of `set_status_rejected_in_mongodb`: `placed_at` stays. */
  function WithStatusRejected(o: Order): (p: Order)
    ensures p.orderStatus == Rejected && p.placedAt == o.placedAt
    ensures p.(orderStatus := o.orderStatus) == o
  {
    o.(orderStatus := Rejected)
  }

  /** The order-created event payload `place_order` builds as written: from
      the order as read before its status was set. */
  function CreatedEventAsWritten(snapshot: Order): (r: Result<OrderDTO, string>)
    ensures r.Err? <==> snapshot.placedAt.None?
  {
    TryFromOrder(snapshot, None)
  }

  /** For an order that was pending and never placed, the payload as written
      cannot be built, although the placement itself succeeds. */
  lemma CreatedEventFromSnapshotFails(snapshot: Order, now: DateTime)
    requires snapshot.orderStatus == Pending && snapshot.placedAt.None?
    ensures CreatedEventAsWritten(snapshot).Err?
    ensures TryFromOrder(WithStatusPlaced(snapshot, now), None).Ok?
  {
  }

  /** The payload of the placed order: the order as it is after placement. */
  function CreatedEvent(placed: Order): (r: Result<OrderDTO, string>)
    requires placed.placedAt.Some?
    ensures r.Ok? && r.value.id == placed.id && r.value.orderStatus == placed.orderStatus
    ensures Some(r.value.placedAt) == placed.placedAt
  {
    TryFromOrder(placed, None)
  }

  /** The order collection and the replicas that order creation validates
      against, with the order-created events sent so far. */
  class OrderService {
    var orders: map<Uuid, Order>
    var users: map<Uuid, User>
    var shipmentMethods: set<Uuid>
    var coupons: set<Uuid>
    var published: seq<OrderDTO>

    constructor (orders: map<Uuid, Order>, users: map<Uuid, User>, shipmentMethods: set<Uuid>, coupons: set<Uuid>)
      ensures this.orders == orders && this.users == users
      ensures this.shipmentMethods == shipmentMethods && this.coupons == coupons && published == []
    {
      this.orders := orders;
      this.users := users;
      this.shipmentMethods := shipmentMethods;
      this.coupons := coupons;
      published := [];
    }

    /** `create_order`. `couponIds` is the flattened coupon list in iteration
        order, `items` the outcome of `create_internal_order_items` (remote
        queries followed by `Zip`), `newId` and `now` stand for `Uuid::new()`
        and `DateTime::now()`, and `storeUp` says whether the insert reaches
        the store. An insert also fails when the id is taken. Validation uses
        the corrected address check, so an input naming an address that is
        not the user's is refused here although the source accepts it. */
    method CreateOrder(input: LegacyCreateOrderInput, couponIds: seq<Uuid>, items: Result<seq<OrderItem>, MutationError>,
                       newId: Uuid, now: DateTime, storeUp: bool)
      returns (r: Result<Order, MutationError>)
      requires FlattensCoupons(couponIds, input.orderItemInputs)
      modifies this`orders
      ensures !ValidOrderInput(users, shipmentMethods, coupons, input) ==>
        r == Err(ValidateOrderInput(users, shipmentMethods, coupons, input, couponIds).error)
      ensures ValidOrderInput(users, shipmentMethods, coupons, input) && items.Err? ==> r == Err(items.error)
      ensures r.Ok? <==> ValidOrderInput(users, shipmentMethods, coupons, input) && items.Ok?
                         && storeUp && newId !in old(orders)
      ensures r.Ok? ==> r.value == NewOrder(input, items.value, newId, now)
      ensures r.Ok? ==> orders == old(orders)[newId := r.value]
      ensures r.Err? ==> orders == old(orders)
      ensures ValidOrderInput(users, shipmentMethods, coupons, input) && items.Ok? && !(storeUp && newId !in old(orders))
        ==> r == Err(InsertFailed)
    {
      var validation := ValidateOrderInput(users, shipmentMethods, coupons, input, couponIds);
      if validation.Err? {
        return Err(validation.error);
      }
      if items.Err? {
        return Err(items.error);
      }
      var order := NewOrder(input, items.value, newId, now);
      if !storeUp || newId in orders {
        return Err(InsertFailed);
      }
      orders := orders[newId := order];
      return Ok(orders[newId]);
    }

    /** `set_status_placed` with `set_status_placed_in_mongodb` and
        `set_status_rejected_in_mongodb`: inside the pending timeout the
        order becomes `Placed` at `now`; after it, the order becomes
        `Rejected` and the call fails either way. `storeUp` says whether the
        update reaches the store. */
    method SetStatusPlaced(id: Uuid, now: DateTime, storeUp: bool) returns (r: Result<Unit, MutationError>)
      modifies this`orders
      ensures id !in old(orders) ==> r == Err(NotFound(id)) && orders == old(orders)
      ensures id in old(orders) && WithinPendingTimeout(old(orders)[id].createdAt, now) ==>
        && (storeUp ==> r.Ok? && orders == old(orders)[id := WithStatusPlaced(old(orders)[id], now)])
        && (!storeUp ==> r == Err(PlacingFailed(id)) && orders == old(orders))
      ensures id in old(orders) && !WithinPendingTimeout(old(orders)[id].createdAt, now) ==>
        && (storeUp ==> r == Err(RejectedForTimeout(id)) && orders == old(orders)[id := WithStatusRejected(old(orders)[id])])
        && (!storeUp ==> r == Err(RejectingFailed(id)) && orders == old(orders))
      ensures r.Ok? <==> id in old(orders) && WithinPendingTimeout(old(orders)[id].createdAt, now) && storeUp
    {
      if id !in orders {
        return Err(NotFound(id));
      }
      var order := orders[id];
      if WithinPendingTimeout(order.createdAt, now) {
        if !storeUp {
          return Err(PlacingFailed(id));
        }
        orders := orders[id := WithStatusPlaced(order, now)];
        return Ok(Unit);
      } else {
        if !storeUp {
          return Err(RejectingFailed(id));
        }
        orders := orders[id := WithStatusRejected(order)];
        return Err(RejectedForTimeout(id));
      }
    }

    /** `place_order`: places the order, sends the order-created event and
        returns the order as stored afterwards. The event is built from the
        placed order rather than from the order as read before placement:
        this is the corrected behaviour of `CreatedEvent`; the source's
        conversion of the earlier snapshot fails (`CreatedEventFromSnapshotFails`).
        `sendOk` says whether the publish request goes through. */
    method PlaceOrder(id: Uuid, now: DateTime, storeUp: bool, sendOk: bool) returns (r: Result<Order, MutationError>)
      modifies this`orders, this`published
      ensures id !in old(orders) ==> r == Err(NotFound(id)) && orders == old(orders) && published == old(published)
      ensures id in old(orders) && !(WithinPendingTimeout(old(orders)[id].createdAt, now) && storeUp) ==>
        r.Err? && published == old(published)
      ensures id in old(orders) && !storeUp ==>
        && orders == old(orders)
        && r == Err(if WithinPendingTimeout(old(orders)[id].createdAt, now) then PlacingFailed(id) else RejectingFailed(id))
      ensures id in old(orders) && !WithinPendingTimeout(old(orders)[id].createdAt, now) && storeUp ==>
        orders == old(orders)[id := WithStatusRejected(old(orders)[id])] && r == Err(RejectedForTimeout(id))
      ensures id in old(orders) && WithinPendingTimeout(old(orders)[id].createdAt, now) && storeUp ==>
        var placed := WithStatusPlaced(old(orders)[id], now);
        && orders == old(orders)[id := placed]
        && (sendOk ==> r == Ok(placed) && published == old(published) + [CreatedEvent(placed).value])
        && (!sendOk ==> r == Err(SendFailed) && published == old(published))
    {
      if id !in orders {
        return Err(NotFound(id));
      }
      var placing := SetStatusPlaced(id, now, storeUp);
      if placing.Err? {
        return Err(placing.error);
      }
      var placed := orders[id];
      var event := CreatedEvent(placed);
      if !sendOk {
        return Err(SendFailed);
      }
      published := published + [event.value];
      return Ok(placed);
    }
  }
}
