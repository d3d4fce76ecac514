/** The resource registry of the engine (Solution/ResourceManager.cpp): shader
    programs and textures stored by name, where a taken name gets "1"s appended.
    The source keeps the two maps as static members; here they are the fields of
    one ResourceManager object. Reading files, compiling shaders and the GL calls
    are foreign: their results are parameters. */
module Resources {
  import opened Outcomes
  import opened Names

  /** GL_RGB or GL_RGBA. */
  datatype ImageFormat = RGB | RGBA

  datatype ShaderProgram = ShaderProgram(name: string, id: nat)

  datatype Texture2D = Texture2D(name: string, id: nat, width: nat, height: nat,
                                 internalFormat: ImageFormat, imageFormat: ImageFormat)

  /** The size of an image that stbi_load decoded. */
  datatype Image = Image(width: nat, height: nat)

  /** The input name followed by the fewest "1"s that make it absent from the map. */
  method GetValidNameForMap<T>(inputName: string, inputMap: map<string, T>) returns (outputName: string)
    ensures outputName == FreshName(inputName, inputMap.Keys)
  {
    outputName := inputName;
    while ItemExistsInMap(outputName, inputMap)
      invariant FreshName(outputName, inputMap.Keys) == FreshName(inputName, inputMap.Keys)
      decreases AtLeastAsLong(inputMap.Keys, |outputName|)
    {
      assert outputName !in AtLeastAsLong(inputMap.Keys, |outputName| + 1);
      outputName := outputName + "1";
    }
  }

  /** The texture loadTextureFromFile builds before the image is read: the given
      name, zero size, and RGBA formats exactly when alpha is asked for. These
      are the facts LoadTexture's contract builds on for the stored texture. */
  function NewTexture(name: string, id: nat, alpha: bool): (t: Texture2D)
    ensures t.name == name && t.width == 0 && t.height == 0
    ensures alpha <==> t.internalFormat == RGBA
    ensures t.internalFormat == t.imageFormat
  {
    var format := if alpha then RGBA else RGB;
    Texture2D(name, id, 0, 0, format, format)
  }

  class ResourceManager {
    var shaderPrograms: map<string, ShaderProgram>
    var textures: map<string, Texture2D>
    /** The ids handed to glDeleteProgram and glDeleteTextures. */
    ghost var deletedPrograms: set<nat>
    ghost var deletedTextures: set<nat>

    /** Every stored resource carries the name it is stored under. */
    ghost predicate Valid()
      reads this
    {
      && (forall n | n in shaderPrograms :: shaderPrograms[n].name == n)
      && (forall n | n in textures :: textures[n].name == n)
    }

    /** The static maps start out empty. */
    constructor ()
      ensures Valid()
      ensures shaderPrograms == map[] && textures == map[]
      ensures deletedPrograms == {} && deletedTextures == {}
    {
      shaderPrograms := map[];
      textures := map[];
      deletedPrograms := {};
      deletedTextures := {};
    }

    /** The stored program of that name, or none (the null pointer). */
    function GetShader(name: string): (r: Option<ShaderProgram>)
      reads this
      ensures r.Some? <==> name in shaderPrograms
      ensures r.Some? ==> r.value == shaderPrograms[name]
    {
      if ItemExistsInMap(name, shaderPrograms) then Some(shaderPrograms[name]) else None
    }

    /** The stored texture of that name, or none (the null pointer). */
    function GetTexture(name: string): (r: Option<Texture2D>)
      reads this
      ensures r.Some? <==> name in textures
      ensures r.Some? ==> r.value == textures[name]
    {
      if ItemExistsInMap(name, textures) then Some(textures[name]) else None
    }

    /** Stores the program compiled from the two files, whose GL id is
        `compiledId`, under a name not yet used, and returns it. Nothing already
        stored is replaced. */
    method LoadShaderProgram(name: string, compiledId: nat) returns (program: ShaderProgram)
      requires Valid()
      modifies this`shaderPrograms
      ensures Valid()
      ensures program.name == FreshName(name, old(shaderPrograms).Keys) && program.id == compiledId
      ensures program.name !in old(shaderPrograms)
      ensures shaderPrograms == old(shaderPrograms)[program.name := program]
      ensures GetShader(program.name) == Some(program)
      ensures forall n | n != program.name :: GetShader(n) == old(GetShader(n))
    {
      var validName := GetValidNameForMap(name, shaderPrograms);
      program := ShaderProgram(validName, compiledId);
      shaderPrograms := shaderPrograms[validName := program];
    }

    /** Builds a texture under a name not yet used and stores it when the image
        could be decoded; when it could not (`image` is None) the call throws and
        nothing is stored. `textureId` is the id glGenTextures hands out. */
    method LoadTexture(name: string, alpha: bool, textureId: nat, image: Option<Image>) returns (r: Result<Texture2D>)
      requires Valid()
      modifies this`textures
      ensures Valid()
      ensures image.None? ==> r == Fail(TextureLoadFailed) && textures == old(textures)
      ensures image.Some? ==>
        var key := FreshName(name, old(textures).Keys);
        && r.Ok?
        && r.value == NewTexture(key, textureId, alpha).(width := image.value.width, height := image.value.height)
        && key !in old(textures)
        && textures == old(textures)[key := r.value]
        && GetTexture(key) == Some(r.value)
    {
      var validName := GetValidNameForMap(name, textures);
      var texture := NewTexture(validName, textureId, alpha);
      if image.None? {
        return Fail(TextureLoadFailed);
      }
      texture := texture.(width := image.value.width, height := image.value.height);
      textures := textures[validName := texture];
      r := Ok(texture);
    }

    /** Releases every stored program and texture and empties both maps. */
    method Clear()
      modifies this
      ensures shaderPrograms == map[] && textures == map[]
      ensures deletedPrograms == old(deletedPrograms) + set n | n in old(shaderPrograms) :: old(shaderPrograms)[n].id
      ensures deletedTextures == old(deletedTextures) + set n | n in old(textures) :: old(textures)[n].id
    {
      deletedPrograms := deletedPrograms + set n | n in shaderPrograms :: shaderPrograms[n].id;
      deletedTextures := deletedTextures + set n | n in textures :: textures[n].id;
      shaderPrograms := map[];
      textures := map[];
    }
  }
}
