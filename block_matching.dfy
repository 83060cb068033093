/** Configuration and region contract of block-matching deformable
    registration (itk::BlockMatching::ImageRegistrationMethod).

    Displacements are computed for blocks of the fixed image laid on a grid;
    an image of search regions in the moving image, the filter's input, says
    where each block is searched and fixes the geometry of the output
    displacement image. */
module BlockMatching {
  import opened ItkTypes
  import opened ImageRegions

  /** A handle on an externally owned fixed or moving image. */
  datatype ImageRef = ImageRef(id: nat)

  /** A handle on a configured metric image filter (the metric strategy). */
  datatype MetricImageFilterRef = MetricImageFilterRef(id: nat)

  /** A handle on a configured metric-image-to-displacement calculator. */
  datatype DisplacementCalculatorRef =
    | MaximumPixelDisplacementCalculator
    | CustomDisplacementCalculator(id: nat)

  /** The information an image carries besides its pixels. */
  datatype ImageInformation = ImageInformation(
    origin: seq<real>,
    spacing: seq<real>,
    direction: seq<seq<real>>,
    largestPossibleRegion: Region)

  /** An image whose pixels are regions of the moving image: one search
      region per block, indexed by the block's grid site. */
  datatype SearchRegionImage = SearchRegionImage(
    information: ImageInformation,
    searchRegions: map<Index, Region>)

  /** The search-region image has n axes and exactly one moving-image region
      (also with n axes) per pixel of its largest possible region. */
  ghost predicate WellFormed(image: SearchRegionImage, n: nat) {
    var info := image.information;
    HasDimension(info.largestPossibleRegion, n) &&
    |info.origin| == n && |info.spacing| == n && |info.direction| == n &&
    (forall row :: row in info.direction ==> |row| == n) &&
    (forall x :: x in image.searchRegions <==> InRegion(x, info.largestPossibleRegion)) &&
    (forall x :: x in image.searchRegions ==> HasDimension(image.searchRegions[x], n))
  }

  /** The registration filter's configuration. Setters update the fields and
      advance the modification time `mtime` as ITK's Modified() does. */
  class ImageRegistrationMethod {
    /** ImageDimension of the displacement image (and of the fixed image, the
        moving image and the search-region image). */
    const imageDimension: nat

    var fixedImage: Option<ImageRef>
    var movingImage: Option<ImageRef>
    var metricImageFilter: Option<MetricImageFilterRef>
    var metricImageToDisplacementCalculator: Option<DisplacementCalculatorRef>
    var useStreaming: bool
    var radius: Radius
    /** The filter's input: the search-region image. */
    var searchRegionImage: Option<SearchRegionImage>
    /** Modification time. */
    var mtime: nat

    ghost predicate Valid()
      reads this
    {
      |radius| == imageDimension &&
      (searchRegionImage.Some? ==> WellFormed(searchRegionImage.value, imageDimension))
    }

    /** A new filter: no images, no metric filter, the maximum-pixel
        displacement calculator and streaming off. */
    constructor (dimension: nat)
      ensures Valid() && imageDimension == dimension
      ensures fixedImage == None && movingImage == None
      ensures metricImageFilter == None
      ensures metricImageToDisplacementCalculator == Some(MaximumPixelDisplacementCalculator)
      ensures !useStreaming
      ensures searchRegionImage == None
    {
      imageDimension := dimension;
      fixedImage, movingImage := None, None;
      metricImageFilter := None;
      metricImageToDisplacementCalculator := Some(MaximumPixelDisplacementCalculator);
      useStreaming := false;
      radius := ZeroRadius(dimension);
      searchRegionImage := None;
      mtime := 0;
    }

    /** Marks the filter as changed. */
    method Modified()
      modifies this`mtime
      ensures mtime == old(mtime) + 1
    {
      mtime := mtime + 1;
    }

    method SetFixedImage(image: Option<ImageRef>)
      requires Valid()
      modifies this
      ensures Valid() && fixedImage == image && mtime >= old(mtime)
      ensures movingImage == old(movingImage) && metricImageFilter == old(metricImageFilter)
      ensures metricImageToDisplacementCalculator == old(metricImageToDisplacementCalculator)
      ensures useStreaming == old(useStreaming) && radius == old(radius)
      ensures searchRegionImage == old(searchRegionImage)
      ensures old(searchRegionImage).Some? ==> OutputInformation() == old(OutputInformation())
    {
      if fixedImage != image {
        fixedImage := image;
        Modified();
      }
    }

    method GetFixedImage() returns (image: Option<ImageRef>)
      ensures image == fixedImage
    {
      image := fixedImage;
    }

    method SetMovingImage(image: Option<ImageRef>)
      requires Valid()
      modifies this
      ensures Valid() && movingImage == image && mtime >= old(mtime)
      ensures fixedImage == old(fixedImage) && metricImageFilter == old(metricImageFilter)
      ensures metricImageToDisplacementCalculator == old(metricImageToDisplacementCalculator)
      ensures useStreaming == old(useStreaming) && radius == old(radius)
      ensures searchRegionImage == old(searchRegionImage)
      ensures old(searchRegionImage).Some? ==> OutputInformation() == old(OutputInformation())
    {
      if movingImage != image {
        movingImage := image;
        Modified();
      }
    }

    method GetMovingImage() returns (image: Option<ImageRef>)
      ensures image == movingImage
    {
      image := movingImage;
    }

    method SetMetricImageFilter(filter: Option<MetricImageFilterRef>)
      requires Valid()
      modifies this
      ensures Valid() && metricImageFilter == filter
      ensures mtime == if filter != old(metricImageFilter) then old(mtime) + 1 else old(mtime)
      ensures fixedImage == old(fixedImage) && movingImage == old(movingImage)
      ensures metricImageToDisplacementCalculator == old(metricImageToDisplacementCalculator)
      ensures useStreaming == old(useStreaming) && radius == old(radius)
      ensures searchRegionImage == old(searchRegionImage)
      ensures old(searchRegionImage).Some? ==> OutputInformation() == old(OutputInformation())
    {
      if metricImageFilter != filter {
        metricImageFilter := filter;
        Modified();
      }
    }

    method GetMetricImageFilter() returns (filter: Option<MetricImageFilterRef>)
      ensures filter == metricImageFilter
    {
      filter := metricImageFilter;
    }

    method SetMetricImageToDisplacementCalculator(calculator: Option<DisplacementCalculatorRef>)
      requires Valid()
      modifies this
      ensures Valid() && metricImageToDisplacementCalculator == calculator
      ensures mtime == if calculator != old(metricImageToDisplacementCalculator)
                       then old(mtime) + 1 else old(mtime)
      ensures fixedImage == old(fixedImage) && movingImage == old(movingImage)
      ensures metricImageFilter == old(metricImageFilter)
      ensures useStreaming == old(useStreaming) && radius == old(radius)
      ensures searchRegionImage == old(searchRegionImage)
      ensures old(searchRegionImage).Some? ==> OutputInformation() == old(OutputInformation())
    {
      if metricImageToDisplacementCalculator != calculator {
        metricImageToDisplacementCalculator := calculator;
        Modified();
      }
    }

    method GetMetricImageToDisplacementCalculator()
      returns (calculator: Option<DisplacementCalculatorRef>)
      ensures calculator == metricImageToDisplacementCalculator
    {
      calculator := metricImageToDisplacementCalculator;
    }

    /** Sets the streaming flag; only a change of value marks the filter
        modified, and no other setting changes. */
    method SetUseStreaming(flag: bool)
      requires Valid()
      modifies this
      ensures Valid() && useStreaming == flag
      ensures mtime == if flag != old(useStreaming) then old(mtime) + 1 else old(mtime)
      ensures fixedImage == old(fixedImage) && movingImage == old(movingImage)
      ensures metricImageFilter == old(metricImageFilter)
      ensures metricImageToDisplacementCalculator == old(metricImageToDisplacementCalculator)
      ensures radius == old(radius) && searchRegionImage == old(searchRegionImage)
      ensures old(searchRegionImage).Some? ==> OutputInformation() == old(OutputInformation())
    {
      if useStreaming != flag {
        useStreaming := flag;
        Modified();
      }
    }

    method GetUseStreaming() returns (flag: bool)
      ensures flag == useStreaming
    {
      flag := useStreaming;
    }

    method UseStreamingOn()
      requires Valid()
      modifies this
      ensures Valid() && useStreaming
      ensures mtime == if !old(useStreaming) then old(mtime) + 1 else old(mtime)
      ensures fixedImage == old(fixedImage) && movingImage == old(movingImage)
      ensures metricImageFilter == old(metricImageFilter)
      ensures metricImageToDisplacementCalculator == old(metricImageToDisplacementCalculator)
      ensures radius == old(radius) && searchRegionImage == old(searchRegionImage)
      ensures old(searchRegionImage).Some? ==> OutputInformation() == old(OutputInformation())
    {
      SetUseStreaming(true);
    }

    method UseStreamingOff()
      requires Valid()
      modifies this
      ensures Valid() && !useStreaming
      ensures mtime == if old(useStreaming) then old(mtime) + 1 else old(mtime)
      ensures fixedImage == old(fixedImage) && movingImage == old(movingImage)
      ensures metricImageFilter == old(metricImageFilter)
      ensures metricImageToDisplacementCalculator == old(metricImageToDisplacementCalculator)
      ensures radius == old(radius) && searchRegionImage == old(searchRegionImage)
      ensures old(searchRegionImage).Some? ==> OutputInformation() == old(OutputInformation())
    {
      SetUseStreaming(false);
    }

    /** Stores the per-axis block radius and always marks the filter
        modified. */
    method SetRadius(newRadius: Radius)
      requires Valid() && |newRadius| == imageDimension
      modifies this
      ensures Valid() && radius == newRadius && mtime == old(mtime) + 1
      ensures fixedImage == old(fixedImage) && movingImage == old(movingImage)
      ensures metricImageFilter == old(metricImageFilter)
      ensures metricImageToDisplacementCalculator == old(metricImageToDisplacementCalculator)
      ensures useStreaming == old(useStreaming) && searchRegionImage == old(searchRegionImage)
      ensures old(searchRegionImage).Some? ==> OutputInformation() == old(OutputInformation())
    {
      radius := newRadius;
      Modified();
    }

    /** Sets the same radius on every axis, so that every block has extent
        2*rad+1 on every axis. */
    method SetRadiusUniform(rad: u32)
      requires Valid()
      modifies this
      ensures Valid() && |radius| == imageDimension
      ensures forall i :: 0 <= i < |radius| ==> radius[i] == rad as int
      ensures forall i :: 0 <= i < |radius| ==> BlockExtent(radius)[i] == 2 * rad as int + 1
      ensures mtime == old(mtime) + 1
      ensures fixedImage == old(fixedImage) && movingImage == old(movingImage)
      ensures metricImageFilter == old(metricImageFilter)
      ensures metricImageToDisplacementCalculator == old(metricImageToDisplacementCalculator)
      ensures useStreaming == old(useStreaming) && searchRegionImage == old(searchRegionImage)
      ensures old(searchRegionImage).Some? ==> OutputInformation() == old(OutputInformation())
    {
      var filled := seq(imageDimension, _ => rad as nat);
      SetRadius(filled);
    }

    method GetRadius() returns (r: Radius)
      requires Valid()
      ensures r == radius && |r| == imageDimension
    {
      r := radius;
    }

    /** Installs the search-region image as the filter's input; only a
        different image marks the filter modified. */
    method SetSearchRegionImage(image: Option<SearchRegionImage>)
      requires Valid()
      requires image.Some? ==> WellFormed(image.value, imageDimension)
      modifies this
      ensures Valid() && searchRegionImage == image
      ensures mtime == if image != old(searchRegionImage) then old(mtime) + 1 else old(mtime)
      ensures fixedImage == old(fixedImage) && movingImage == old(movingImage)
      ensures metricImageFilter == old(metricImageFilter)
      ensures metricImageToDisplacementCalculator == old(metricImageToDisplacementCalculator)
      ensures useStreaming == old(useStreaming) && radius == old(radius)
      ensures image.Some? ==> OutputInformation() == image.value.information
    {
      if searchRegionImage != image {
        searchRegionImage := image;
        Modified();
      }
    }

    /** The information of the output displacement image, which the
        search-region input determines: one output grid site per search
        region, with the same origin, spacing, direction and largest
        possible region. */
    function OutputInformation(): (info: ImageInformation)
      reads this
      requires Valid() && searchRegionImage.Some?
      ensures HasDimension(info.largestPossibleRegion, imageDimension)
      ensures forall site :: InRegion(site, info.largestPossibleRegion) <==>
        site in searchRegionImage.value.searchRegions
    {
      searchRegionImage.value.information
    }

    /** The region of the moving image that contributes to the search at a
        grid site: the site's search region dilated by the block radius. It
        covers the search region and every block centred in it, and (see
        ImageRegions.ContributingRegionIsDilation) nothing more when the
        search region is non-empty. */
    function ContributingRegion(site: Index): (contributing: Region)
      reads this
      requires Valid() && searchRegionImage.Some?
      requires site in searchRegionImage.value.searchRegions
      ensures contributing == Dilate(searchRegionImage.value.searchRegions[site], radius)
      ensures HasDimension(contributing, imageDimension)
      ensures Covers(contributing, searchRegionImage.value.searchRegions[site])
      ensures forall c :: InRegion(c, searchRegionImage.value.searchRegions[site]) ==>
        Covers(contributing, BlockRegion(c, radius))
    {
      var search := searchRegionImage.value.searchRegions[site];
      DilateCovers(search, radius);
      forall c | InRegion(c, search)
        ensures Covers(Dilate(search, radius), BlockRegion(c, radius))
      {
        BlockInsideDilation(search, radius, c);
      }
      Dilate(search, radius)
    }
  }
}
