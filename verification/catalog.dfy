/**
  The admin catalog handlers: create, update and delete a product. Every one
  runs behind the admin guard; the multipart upload (multer) is an input of the
  model, as the outcome it produced for the `image` field.
 */
module Catalog {
  import opened Wrappers
  import opened Text
  import opened Http
  import opened Entities
  import opened Auth

  /** The text fields of the multipart body. */
  datatype ProductForm = ProductForm(name: string, category: string, price: int, desc: string, specs: string)

  /** What the upload middleware made of the `image` field: no file, a file saved under `filename`, or an error. */
  datatype Upload = NoFile | Stored(filename: string) | Rejected(message: string)

  /** The public path under which uploaded files are served. */
  const UploadsPrefix: string := "/uploads/"

  function WithImage(form: ProductForm, image: string): Product {
    Product(form.name, form.category, form.price, form.desc, form.specs, image)
  }

  /**
    `POST /api/apps`: the guard's answer, then 400 for a failed upload, then
    400 when no file was uploaded; otherwise the product, whose image is the
    uploaded file's public path, is stored under the new id.
   */
  function CreateProduct(header: Option<string>, verify: Verifier, form: ProductForm, upload: Upload,
                         catalog: map<Id, Product>, newId: Id)
    : (r: (Result<Product, HttpError>, map<Id, Product>))
    ensures AdminGuard(header, verify).Err? ==> r == (Err(AdminGuard(header, verify).error), catalog)
    ensures AdminGuard(header, verify).Ok? && upload.Rejected? ==> r == (Err(UploadFailed(upload.message)), catalog)
    ensures AdminGuard(header, verify).Ok? && upload.NoFile? ==> r == (Err(ImageRequired), catalog)
    ensures r.0.Ok? <==> AdminGuard(header, verify).Ok? && upload.Stored?
    ensures r.0.Ok? ==>
      && r.0.value == WithImage(form, UploadsPrefix + upload.filename)
      && r.1 == catalog[newId := r.0.value]
    ensures r.0.Err? ==> r.1 == catalog
  {
    var guard := AdminGuard(header, verify);
    if guard.Err? then (Err(guard.error), catalog)
    else
      match upload
      case Rejected(message) => (Err(UploadFailed(message)), catalog)
      case NoFile => (Err(ImageRequired), catalog)
      case Stored(filename) =>
        var product := WithImage(form, UploadsPrefix + filename);
        (Ok(product), catalog[newId := product])
  }

  /**
    The image an update stores: the uploaded file's path, else a non-empty
    `existingImage` from the form, else the stored image. A stored image that is
    not empty is never replaced by an empty one.
   */
  function UpdatedImage(upload: Upload, existingImage: Option<string>, stored: string): (image: string)
    requires !upload.Rejected?
    ensures upload.Stored? ==> image == UploadsPrefix + upload.filename
    ensures upload.NoFile? ==> image == (if Truthy(existingImage) then existingImage.value else stored)
    ensures stored != "" ==> image != ""
  {
    match upload
    case Stored(filename) => UploadsPrefix + filename
    case NoFile => if Truthy(existingImage) then existingImage.value else stored
  }

  /**
    `PUT /api/apps/:id`: the guard's answer, then 400 for a failed upload, then
    404 for an unknown id; otherwise every field is replaced from the form and
    the image is chosen by `UpdatedImage`.
   */
  function UpdateProduct(header: Option<string>, verify: Verifier, id: Id, form: ProductForm, upload: Upload,
                         existingImage: Option<string>, catalog: map<Id, Product>)
    : (r: (Result<Product, HttpError>, map<Id, Product>))
    ensures AdminGuard(header, verify).Err? ==> r == (Err(AdminGuard(header, verify).error), catalog)
    ensures AdminGuard(header, verify).Ok? && upload.Rejected? ==> r == (Err(UploadFailed(upload.message)), catalog)
    ensures AdminGuard(header, verify).Ok? && !upload.Rejected? && id !in catalog ==> r == (Err(AppNotFound), catalog)
    ensures r.0.Ok? <==> AdminGuard(header, verify).Ok? && !upload.Rejected? && id in catalog
    ensures r.0.Ok? ==>
      && r.0.value == WithImage(form, UpdatedImage(upload, existingImage, catalog[id].image))
      && r.1 == catalog[id := r.0.value]
    ensures r.0.Ok? && catalog[id].image != "" ==> r.0.value.image != ""
    ensures r.0.Err? ==> r.1 == catalog
    ensures r.1.Keys == catalog.Keys
  {
    var guard := AdminGuard(header, verify);
    if guard.Err? then (Err(guard.error), catalog)
    else if upload.Rejected? then (Err(UploadFailed(upload.message)), catalog)
    else if id !in catalog then (Err(AppNotFound), catalog)
    else
      var product := WithImage(form, UpdatedImage(upload, existingImage, catalog[id].image));
      (Ok(product), catalog[id := product])
  }

  /** `DELETE /api/apps/:id`: the guard's answer, then 404 for an unknown id; otherwise the product is removed. */
  function DeleteProduct(header: Option<string>, verify: Verifier, id: Id, catalog: map<Id, Product>)
    : (r: (Result<(), HttpError>, map<Id, Product>))
    ensures AdminGuard(header, verify).Err? ==> r == (Err(AdminGuard(header, verify).error), catalog)
    ensures AdminGuard(header, verify).Ok? && id !in catalog ==> r == (Err(AppNotFound), catalog)
    ensures r.0.Ok? <==> AdminGuard(header, verify).Ok? && id in catalog
    ensures r.0.Ok? ==> r.1.Keys == catalog.Keys - {id}
    ensures r.0.Err? ==> r.1 == catalog
    ensures forall k :: k in r.1 ==> k in catalog && r.1[k] == catalog[k]
  {
    var guard := AdminGuard(header, verify);
    if guard.Err? then (Err(guard.error), catalog)
    else if id !in catalog then (Err(AppNotFound), catalog)
    else (Ok(()), catalog - {id})
  }
}
