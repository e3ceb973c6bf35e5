/**
 * The product record shared by the pages and the recommender, the
 * ten-product sample catalog each of them carries, and lookup by id.
 */
module Catalog {
  import opened Seqs

  /** A catalog entry. Prices and efficiencies are JavaScript numbers or
      pandas floats in the source; here they are exact reals. */
  datatype Product = Product(id: int, name: string, category: string, efficiency: real, price: real)

  function Efficiency(p: Product): real { p.efficiency }

  /** The six category keys of the checkbox map and the category selectors. */
  const CategoryKeys: seq<string> := ["solar", "wind", "storage", "hydro", "biomass", "efficiency"]

  /** The sample catalog, identical in the three pages and the recommender. */
  function SampleProducts(): seq<Product>
  {
    [ Product(1, "Solar Panel 300W", "solar", 0.22, 250.0),
      Product(2, "Wind Turbine 1kW", "wind", 0.35, 1200.0),
      Product(3, "Home Battery 10kWh", "storage", 0.9, 3500.0),
      Product(4, "Solar Inverter 3kW", "solar", 0.97, 800.0),
      Product(5, "Smart Energy Monitor", "efficiency", 0.99, 150.0),
      Product(6, "Solar Water Heater", "solar", 0.75, 1800.0),
      Product(7, "Energy Efficient LED Bulbs (10pk)", "efficiency", 0.95, 30.0),
      Product(8, "Micro Hydro Generator", "hydro", 0.7, 2200.0),
      Product(9, "Biomass Stove", "biomass", 0.6, 450.0),
      Product(10, "Solar Charge Controller", "solar", 0.98, 120.0) ]
  }

  /** `catalog.find(p => p.id === id)`, and pandas' `df[df['id'] == id].iloc[0]`
      when a row exists: the FIRST product with that id, or nothing. */
  function FindById(catalog: seq<Product>, id: int): (r: Option<Product>)
    ensures r.None? <==> forall i :: 0 <= i < |catalog| ==> catalog[i].id != id
    ensures r.Some? ==> exists i :: 0 <= i < |catalog| && catalog[i] == r.value
                                    && (forall j :: 0 <= j < i ==> catalog[j].id != id)
    ensures r.Some? ==> r.value.id == id
  {
    if catalog == [] then None
    else if catalog[0].id == id then Some(catalog[0])
    else
      var rest := FindById(catalog[1..], id);
      assert rest.Some? ==> exists i :: 1 <= i < |catalog| && catalog[i] == rest.value
                                        && (forall j :: 1 <= j < i ==> catalog[j].id != id);
      rest
  }

  /** The first product with a given id is found. */
  lemma FindByIdAt(catalog: seq<Product>, i: int)
    requires 0 <= i < |catalog| && forall j :: 0 <= j < i ==> catalog[j].id != catalog[i].id
    ensures FindById(catalog, catalog[i].id) == Some(catalog[i])
  {
    var r := FindById(catalog, catalog[i].id);
    var k :| 0 <= k < |catalog| && catalog[k] == r.value
             && (forall j :: 0 <= j < k ==> catalog[j].id != catalog[i].id);
    assert !(k < i) && !(i < k);
  }

  /** In a catalog whose j-th product has id j + 1, id k is the k-th product. */
  lemma FindInNumbered(catalog: seq<Product>, k: int)
    requires forall j :: 0 <= j < |catalog| ==> catalog[j].id == j + 1
    requires 1 <= k <= |catalog|
    ensures FindById(catalog, k) == Some(catalog[k - 1])
  {
    FindByIdAt(catalog, k - 1);
  }

  /** The sample catalog lists ids 1 to 10 in order. */
  lemma SampleProductIds()
    ensures |SampleProducts()| == 10
    ensures forall j :: 0 <= j < |SampleProducts()| ==> SampleProducts()[j].id == j + 1
  {
  }
}
