/** backend/.../controllers/ModelController.java, with `ModelService`
    folded in: the model endpoints over the model table, and the list of a
    brand's models, which also looks at the brand table. */
module ModelApi {
  import opened Common
  import opened Store
  import BrandApi

  /** The columns of a model besides its id: its name and the id of the
      brand it belongs to. */
  datatype ModelFields = ModelFields(name: string, brandId: int)

  /** `findByBrand`: the stored models of one brand, by id. */
  function ModelsOfBrand(rows: map<int, ModelFields>, brandId: int): map<int, ModelFields> {
    RowsWhere(rows, (m: ModelFields) => m.brandId == brandId)
  }

  /** A model created for brand `b` joins exactly `b`'s list; every other
      brand's list stays as it was; and a removed model leaves its list. */
  lemma ModelListsFollowChanges(rows: map<int, ModelFields>, id: int, m: ModelFields, other: int)
    requires other != m.brandId
    ensures ModelsOfBrand(rows[id := m], m.brandId) == ModelsOfBrand(rows, m.brandId)[id := m]
    ensures id !in rows ==> ModelsOfBrand(rows[id := m], other) == ModelsOfBrand(rows, other)
    ensures ModelsOfBrand(rows - {id}, m.brandId) == ModelsOfBrand(rows, m.brandId) - {id}
  {
    var after := rows[id := m];
    assert ModelsOfBrand(after, m.brandId).Keys == ModelsOfBrand(rows, m.brandId)[id := m].Keys;
    if id !in rows {
      assert ModelsOfBrand(after, other).Keys == ModelsOfBrand(rows, other).Keys;
    }
    assert ModelsOfBrand(rows - {id}, m.brandId).Keys == ModelsOfBrand(rows, m.brandId).Keys - {id};
  }

  class ModelController {
    const models: Table<ModelFields>
    const brands: Table<BrandApi.BrandFields>

    constructor(models: Table<ModelFields>, brands: Table<BrandApi.BrandFields>)
      ensures this.models == models && this.brands == brands
    {
      this.models := models;
      this.brands := brands;
    }

    /** `getAllModels`: 200 with every stored model. */
    function GetAllModels(): (r: Response<map<int, ModelFields>>)
      reads models
      ensures r == Response(HttpOk, Some(models.rows))
    {
      Response(HttpOk, Some(models.rows))
    }

    /** `getModelById`. */
    function GetModelById(id: int): (r: Response<Entity<ModelFields>>)
      reads models
      ensures r == Lookup(models.rows, id)
    {
      match models.FindById(id)
      case Some(model) => Response(HttpOk, Some(model))
      case None => Response(HttpNotFound, None)
    }

    /** `getModelsByBrand`: 404 when the brand is not stored, and otherwise
        200 with exactly the models of that brand. */
    function GetModelsByBrand(brandId: int): (r: Response<map<int, ModelFields>>)
      reads models, brands
      ensures r.Response? && (r.code == HttpOk <==> brandId in brands.rows)
      ensures brandId !in brands.rows ==> r == Response(HttpNotFound, None)
      ensures brandId in brands.rows ==>
        && r.body.Some?
        && (forall k :: k in r.body.value <==> k in models.rows && models.rows[k].brandId == brandId)
        && (forall k :: k in r.body.value ==> r.body.value[k] == models.rows[k])
    {
      match brands.FindById(brandId)
      case None => Response(HttpNotFound, None)
      case Some(_) => Response(HttpOk, Some(ModelsOfBrand(models.rows, brandId)))
    }

    /** `createModel`: store the body as a new model; 201 with the saved
        model. The id the body carries is not used, and the brand it names
        is not checked. */
    method CreateModel(body: Entity<ModelFields>) returns (r: Response<Entity<ModelFields>>)
      requires models.Valid()
      modifies models
      ensures models.Valid()
      ensures r == Response(HttpCreated, Some(Entity(Some(old(models.nextId)), body.fields)))
      ensures old(models.nextId) !in old(models.rows)
      ensures models.rows == old(models.rows)[old(models.nextId) := body.fields]
    {
      var saved := models.Insert(body.fields);
      r := Response(HttpCreated, Some(saved));
    }

    /** `updateModel`: 404 and no change for a missing id; otherwise the
        body is saved under the path id, whatever id it carried, and 200. */
    method UpdateModel(id: int, body: Entity<ModelFields>) returns (r: Response<Entity<ModelFields>>)
      requires models.Valid()
      modifies models
      ensures models.Valid() && models.nextId == old(models.nextId)
      ensures id !in old(models.rows) ==> r == Response(HttpNotFound, None) && models.rows == old(models.rows)
      ensures id in old(models.rows) ==>
        r == Response(HttpOk, Some(Entity(Some(id), body.fields))) && models.rows == old(models.rows)[id := body.fields]
    {
      if models.FindById(id).None? {
        return Response(HttpNotFound, None);
      }
      var saved := models.Overwrite(id, body.fields);
      r := Response(HttpOk, Some(saved));
    }

    /** `deleteModel`: 404 and no change for a missing id; otherwise the
        model is removed and 204. */
    method DeleteModel(id: int) returns (r: Response<()>)
      requires models.Valid()
      modifies models
      ensures models.Valid() && models.nextId == old(models.nextId)
      ensures id !in old(models.rows) ==> r == Response(HttpNotFound, None) && models.rows == old(models.rows)
      ensures id in old(models.rows) ==> r == Response(HttpNoContent, None) && models.rows == old(models.rows) - {id}
    {
      if models.FindById(id).None? {
        return Response(HttpNotFound, None);
      }
      models.DeleteById(id);
      r := Response(HttpNoContent, None);
    }
  }
}
