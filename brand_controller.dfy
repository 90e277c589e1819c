/** backend/.../controllers/BrandController.java, with `BrandService`
    folded in: every endpoint reads or changes the brand table. */
module BrandApi {
  import opened Common
  import opened Store

  /** The columns of a brand besides its id. */
  datatype BrandFields = BrandFields(name: string)

  class BrandController {
    const brands: Table<BrandFields>

    constructor(brands: Table<BrandFields>)
      ensures this.brands == brands
    {
      this.brands := brands;
    }

    /** `getAllBrands`: 200 with every stored brand. */
    function GetAllBrands(): (r: Response<map<int, BrandFields>>)
      reads brands
      ensures r == Response(HttpOk, Some(brands.rows))
    {
      Response(HttpOk, Some(brands.rows))
    }

    /** `getBrandById`. */
    function GetBrandById(id: int): (r: Response<Entity<BrandFields>>)
      reads brands
      ensures r == Lookup(brands.rows, id)
    {
      match brands.FindById(id)
      case Some(brand) => Response(HttpOk, Some(brand))
      case None => Response(HttpNotFound, None)
    }

    /** `createBrand`: store the body as a new brand; 201 with the saved
        brand. The id the body carries is not used. */
    method CreateBrand(body: Entity<BrandFields>) returns (r: Response<Entity<BrandFields>>)
      requires brands.Valid()
      modifies brands
      ensures brands.Valid()
      ensures r == Response(HttpCreated, Some(Entity(Some(old(brands.nextId)), body.fields)))
      ensures old(brands.nextId) !in old(brands.rows)
      ensures brands.rows == old(brands.rows)[old(brands.nextId) := body.fields]
    {
      var saved := brands.Insert(body.fields);
      r := Response(HttpCreated, Some(saved));
    }

    /** `updateBrand`: 404 and no change for a missing id; otherwise the
        body is saved under the path id, whatever id it carried, and 200. */
    method UpdateBrand(id: int, body: Entity<BrandFields>) returns (r: Response<Entity<BrandFields>>)
      requires brands.Valid()
      modifies brands
      ensures brands.Valid() && brands.nextId == old(brands.nextId)
      ensures id !in old(brands.rows) ==> r == Response(HttpNotFound, None) && brands.rows == old(brands.rows)
      ensures id in old(brands.rows) ==>
        r == Response(HttpOk, Some(Entity(Some(id), body.fields))) && brands.rows == old(brands.rows)[id := body.fields]
    {
      if brands.FindById(id).None? {
        return Response(HttpNotFound, None);
      }
      var saved := brands.Overwrite(id, body.fields);
      r := Response(HttpOk, Some(saved));
    }

    /** `deleteBrand`: 404 and no change for a missing id; otherwise the
        brand is removed and 204. */
    method DeleteBrand(id: int) returns (r: Response<()>)
      requires brands.Valid()
      modifies brands
      ensures brands.Valid() && brands.nextId == old(brands.nextId)
      ensures id !in old(brands.rows) ==> r == Response(HttpNotFound, None) && brands.rows == old(brands.rows)
      ensures id in old(brands.rows) ==> r == Response(HttpNoContent, None) && brands.rows == old(brands.rows) - {id}
    {
      if brands.FindById(id).None? {
        return Response(HttpNotFound, None);
      }
      brands.DeleteById(id);
      r := Response(HttpNoContent, None);
    }
  }
}
